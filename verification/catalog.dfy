/** The two fixed image catalogs: cat pictures 8497.jpg to 8600.jpg and dog
    pictures 784.jpg to 887.jpg, each in its own folder. */
module Catalog {
  import opened Strings

  /** The label a test image actually carries. */
  datatype Label = Cat | Dog

  /** The label as the sketch spells it ('Cat' or 'Dog'). */
  function LabelName(l: Label): (name: string)
    ensures name == "Cat" <==> l == Cat
    ensures name == "Dog" <==> l == Dog
  {
    match l
    case Cat => "Cat"
    case Dog => "Dog"
  }

  /** One test item: an image path and its actual label. */
  datatype Entry = Entry(imagePath: string, actualLabel: Label)

  const CatFolder: string := "test_images/MoreImages_Catszip/"
  const DogFolder: string := "test_images/MoreSamplesDogs/"
  const FirstCat: nat := 8497
  const LastCat: nat := 8600
  const FirstDog: nat := 784
  const LastDog: nat := 887

  /** The path of picture number `n` in `folder`. */
  function ImagePath(folder: string, n: nat): string {
    folder + Digits(n) + ".jpg"
  }

  /** The paths of pictures `first` to `last` inclusive, in that order; none
      when `last < first`. */
  function CatalogPaths(folder: string, first: nat, last: nat): (paths: seq<string>)
    ensures |paths| == if last < first then 0 else last - first + 1
    ensures forall k :: 0 <= k < |paths| ==> paths[k] == ImagePath(folder, first + k)
  {
    seq(if last < first then 0 else last - first + 1, k requires 0 <= k => ImagePath(folder, first + k))
  }

  /** The start-up loop that fills a catalog, one path per number. */
  method BuildCatalog(folder: string, first: nat, last: nat) returns (paths: seq<string>)
    ensures paths == CatalogPaths(folder, first, last)
  {
    paths := [];
    var i := first;
    while i <= last
      invariant first <= i && (i <= last + 1 || (last < first && i == first))
      invariant |paths| == i - first
      invariant forall k :: 0 <= k < |paths| ==> paths[k] == ImagePath(folder, first + k)
    {
      paths := paths + [ImagePath(folder, i)];
      i := i + 1;
    }
  }

  /** Each catalog holds 104 pictures. */
  lemma CatalogSizes()
    ensures |CatalogPaths(CatFolder, FirstCat, LastCat)| == 104
    ensures |CatalogPaths(DogFolder, FirstDog, LastDog)| == 104
  {
  }

  /** The file name shown in a tooltip is the picture number with `.jpg`. */
  lemma CatalogFileName(folder: string, first: nat, last: nat, k: nat)
    requires EndsWith(folder, "/")
    requires k < |CatalogPaths(folder, first, last)|
    ensures FileName(CatalogPaths(folder, first, last)[k]) == Digits(first + k) + ".jpg"
  {
    var name := Digits(first + k) + ".jpg";
    assert '/' !in name by {
      assert forall j :: 0 <= j < |name| ==> name[j] != '/';
    }
    assert ImagePath(folder, first + k) == folder + name;
    FileNameAfterFolder(folder, name);
  }

  /** No picture appears twice in a catalog. */
  lemma CatalogDistinct(folder: string, first: nat, last: nat, j: nat, k: nat)
    requires j < k < |CatalogPaths(folder, first, last)|
    ensures CatalogPaths(folder, first, last)[j] != CatalogPaths(folder, first, last)[k]
  {
    var pj, pk := ImagePath(folder, first + j), ImagePath(folder, first + k);
    if pj == pk {
      var dj, dk := Digits(first + j), Digits(first + k);
      assert pj[|folder|..|pj| - 4] == dj;
      assert pk[|folder|..|pk| - 4] == dk;
      DigitsInjective(first + j, first + k);
    }
  }
}
