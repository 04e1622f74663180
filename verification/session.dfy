/** The sketch's session state: the two page cursors, the current page of
    test items, the pictures loaded for it, one result slot per item, the
    running count of correct answers and the "all classified" flag, with the
    handlers that change them. */
module Session {
  import opened Catalog
  import opened Pager
  import opened Classifier

  /** The picture held for a test item once its load has settled: the
      preprocessed image, or a placeholder showing the expected label when
      the image could not be decoded. */
  datatype Picture = Preprocessed(path: string) | Placeholder(expected: Label)

  /** A result slot: `null` until the item is classified. */
  datatype Slot = Pending | Filled(prediction: Prediction)

  class Tester {
    const cats: seq<string>
    const dogs: seq<string>
    var catCursor: nat
    var dogCursor: nat
    var modelLoaded: bool
    var testData: seq<Entry>
    var images: seq<Picture>
    var results: seq<Slot>
    var correctCount: nat
    var allClassified: bool

    /** Cursors stay inside their catalogs and there is one result slot per
        item and, once loaded, one picture per item. */
    ghost predicate Valid()
      reads this
    {
      && 0 < |cats| && 0 < |dogs|
      && catCursor < |cats| && dogCursor < |dogs|
      && |results| == |testData|
      && (images == [] || |images| == |testData|)
    }

    /** The state when the page opens: both catalogs filled, cursors at 0, no
        model and no page yet. */
    constructor ()
      ensures Valid()
      ensures cats == CatalogPaths(CatFolder, FirstCat, LastCat)
      ensures dogs == CatalogPaths(DogFolder, FirstDog, LastDog)
      ensures catCursor == 0 && dogCursor == 0 && !modelLoaded
      ensures testData == [] && images == [] && results == []
      ensures correctCount == 0 && !allClassified
    {
      var c := BuildCatalog(CatFolder, FirstCat, LastCat);
      var d := BuildCatalog(DogFolder, FirstDog, LastDog);
      cats, dogs := c, d;
      catCursor, dogCursor := 0, 0;
      modelLoaded := false;
      testData, images, results := [], [], [];
      correctCount, allClassified := 0, false;
    }

    /** Builds the next page: resets the session, takes up to five cats and
        then up to five dogs from the cursors, moves each cursor past what it
        took (to 0 at the end of its catalog) and makes one empty result slot
        per item. */
    method GenerateTestData()
      requires Valid()
      modifies this
      ensures Valid()
      ensures testData == Page(cats, dogs, old(catCursor), old(dogCursor))
      ensures catCursor == Advance(|cats|, old(catCursor))
      ensures dogCursor == Advance(|dogs|, old(dogCursor))
      ensures images == [] && correctCount == 0 && !allClassified
      ensures |results| == |testData| && forall i :: 0 <= i < |results| ==> results[i] == Pending
      ensures modelLoaded == old(modelLoaded)
    {
      var selectedCats, nextCat := TakeFrom(cats, catCursor);
      var selectedDogs, nextDog := TakeFrom(dogs, dogCursor);

      var combined := Labelled(selectedCats, Cat) + Labelled(selectedDogs, Dog);
      var slots: seq<Slot> := [];
      var i := 0;
      while i < |combined|
        invariant 0 <= i <= |combined|
        invariant |slots| == i && forall k :: 0 <= k < i ==> slots[k] == Pending
      {
        slots := slots + [Pending];
        i := i + 1;
      }

      catCursor, dogCursor := nextCat, nextDog;
      testData, images, results := combined, [], slots;
      correctCount, allClassified := 0, false;
    }

    /** One label's share of a page: up to five pictures from the cursor on,
        and the cursor moved past them, or reset to 0 at the end of the
        catalog. */
    static method TakeFrom(catalog: seq<string>, cursor: nat) returns (selected: seq<string>, next: nat)
      requires cursor < |catalog|
      ensures selected == Slice(catalog, cursor)
      ensures next == Advance(|catalog|, cursor)
    {
      selected := [];
      var toShow := Min(PerLabel, |catalog| - cursor);
      var i := 0;
      while i < toShow
        invariant 0 <= i <= toShow
        invariant selected == catalog[cursor..cursor + i]
      {
        selected := selected + [catalog[cursor + i]];
        i := i + 1;
      }
      next := cursor + toShow;
      if next >= |catalog| {
        next := 0;
      }
    }

    /** The metadata of a model was fetched: the model counts as loaded and
        the first page is built from cursors reset to 0. */
    method OnMetadataLoaded()
      requires Valid()
      modifies this
      ensures Valid() && modelLoaded
      ensures testData == Page(cats, dogs, 0, 0)
      ensures catCursor == Advance(|cats|, 0) && dogCursor == Advance(|dogs|, 0)
      ensures images == [] && correctCount == 0 && !allClassified
      ensures forall i :: 0 <= i < |results| ==> results[i] == Pending
    {
      modelLoaded := true;
      catCursor, dogCursor := 0, 0;
      GenerateTestData();
    }

    /** The "next" button: with a model loaded, builds the next page;
        otherwise nothing happens. */
    method Next()
      requires Valid()
      modifies this
      ensures Valid()
      ensures !old(modelLoaded) ==> unchanged(this)
      ensures old(modelLoaded) ==>
        && modelLoaded
        && testData == Page(cats, dogs, old(catCursor), old(dogCursor))
        && catCursor == Advance(|cats|, old(catCursor))
        && dogCursor == Advance(|dogs|, old(dogCursor))
        && images == [] && correctCount == 0 && !allClassified
        && (forall i :: 0 <= i < |results| ==> results[i] == Pending)
    {
      if modelLoaded {
        GenerateTestData();
      }
    }

    /** The "back" button: with a model loaded, moves each cursor ten places
        down (stopping at 0) and builds the page there; otherwise nothing
        happens. */
    method Back()
      requires Valid()
      modifies this
      ensures Valid()
      ensures !old(modelLoaded) ==> unchanged(this)
      ensures old(modelLoaded) ==>
        && modelLoaded
        && testData == Page(cats, dogs, Retreat(old(catCursor)), Retreat(old(dogCursor)))
        && catCursor == Advance(|cats|, Retreat(old(catCursor)))
        && dogCursor == Advance(|dogs|, Retreat(old(dogCursor)))
        && images == [] && correctCount == 0 && !allClassified
        && (forall i :: 0 <= i < |results| ==> results[i] == Pending)
    {
      if modelLoaded {
        catCursor := Retreat(catCursor);
        dogCursor := Retreat(dogCursor);
        GenerateTestData();
      }
    }

    /** The pictures of the page once every load has settled: `decoded[i]`
        says whether item `i` decoded; a failed item gets a placeholder, so
        a page always settles, whatever fails. */
    method LoadImages(decoded: seq<bool>)
      requires Valid() && |decoded| == |testData|
      modifies this
      ensures testData == old(testData) && results == old(results)
      ensures Valid()
      ensures |images| == |testData|
      ensures forall i :: 0 <= i < |images| ==>
        images[i] == if decoded[i] then Preprocessed(testData[i].imagePath)
                     else Placeholder(testData[i].actualLabel)
      ensures catCursor == old(catCursor) && dogCursor == old(dogCursor)
      ensures correctCount == old(correctCount) && allClassified == old(allClassified)
      ensures modelLoaded == old(modelLoaded)
    {
      var pictures: seq<Picture> := [];
      var i := 0;
      while i < |testData|
        invariant 0 <= i <= |testData| && |pictures| == i
        invariant forall k :: 0 <= k < i ==>
          pictures[k] == if decoded[k] then Preprocessed(testData[k].imagePath)
                         else Placeholder(testData[k].actualLabel)
      {
        var picture := if decoded[i] then Preprocessed(testData[i].imagePath)
                       else Placeholder(testData[i].actualLabel);
        pictures := pictures + [picture];
        i := i + 1;
      }
      images := pictures;
    }

    /** Classifies the loaded pictures one at a time in index order, the
        classifier's answers being `outcomes`: every slot is filled with the
        recorded answer, the count grows by the number of correct answers,
        and once the last slot is filled the page is marked classified. The
        result says whether the zero-matches warning is raised. */
    method ClassifyAll(outcomes: seq<Outcome>) returns (zeroMatchWarning: bool)
      requires Valid() && |images| == |testData| && |outcomes| == |images|
      modifies this
      ensures testData == old(testData) && images == old(images)
      ensures Valid()
      ensures |results| == |images|
      ensures forall i :: 0 <= i < |results| ==> results[i] == Filled(Record(outcomes[i]))
      ensures correctCount == old(correctCount) + CountCorrect(testData, Records(outcomes))
      ensures allClassified == (old(allClassified) || |images| > 0)
      ensures zeroMatchWarning <==> |images| > 0 && correctCount == 0
      ensures catCursor == old(catCursor) && dogCursor == old(dogCursor)
      ensures modelLoaded == old(modelLoaded)
    {
      ghost var preds := Records(outcomes);
      var slots := results;
      var count := correctCount;
      var done := allClassified;
      var classifiedCount := 0;
      zeroMatchWarning := false;
      var index := 0;
      while index < |images|
        invariant 0 <= index <= |images| && classifiedCount == index
        invariant unchanged(this)
        invariant |preds| == |outcomes| == |images| == |testData|
        invariant |slots| == |images|
        invariant forall k :: 0 <= k < index ==> slots[k] == Filled(preds[k])
        invariant count == correctCount + CountCorrect(testData[..index], preds[..index])
        invariant done == (allClassified || (index > 0 && index == |images|))
        invariant zeroMatchWarning <==> index > 0 && index == |images| && count == 0
      {
        var prediction := Record(outcomes[index]);
        slots := slots[index := Filled(prediction)];
        if IsCorrect(prediction, testData[index].actualLabel) {
          count := count + 1;
        }
        CountStep(testData, preds, index);
        classifiedCount := classifiedCount + 1;
        if classifiedCount == |images| {
          done := true;
          zeroMatchWarning := count == 0;
        }
        index := index + 1;
      }
      assert testData[..index] == testData && preds[..index] == preds;
      results, correctCount, allClassified := slots, count, done;
    }

    /** Whether the back button stays disabled once the page is classified. */
    predicate BackButtonDisabled()
      reads this
    {
      BackDisabled(catCursor, dogCursor)
    }
  }
}
