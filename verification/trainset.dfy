/** The training list (train.py:212-234): the image files of the training directory, the
    sole identifier of every singleton class once more, and the distractor files. */
module TrainSet {
  import opened Items
  import opened Catalog

  /** The identifiers of the singleton class lists among classes 0..n-1, in class order. */
  function Singletons(m: map<nat, seq<string>>, n: nat): seq<string>
  {
    if n == 0 then []
    else Singletons(m, n - 1) + (if n - 1 in m && |m[n - 1]| == 1 then [m[n - 1][0]] else [])
  }

  /** `ids_to_dup`: `cat_to_ids` is iterated in key-insertion order, which is class order
      0..cat-1 followed by the distractor class cat (the one index that can reach cat). */
  function DupIds(c: Catalog): seq<string>
  {
    Singletons(c.catToIds, c.next + 1)
  }

  /** The classes below n whose list is exactly [id]. */
  function SingletonClassesOf(m: map<nat, seq<string>>, n: nat, id: string): set<nat>
  {
    set k: nat | k < n && k in m && m[k] == [id]
  }

  /** How many of the classes below n have the list [id]. */
  function SingletonCount(m: map<nat, seq<string>>, n: nat, id: string): nat
  {
    if n == 0 then 0
    else SingletonCount(m, n - 1, id) + (if n - 1 in m && m[n - 1] == [id] then 1 else 0)
  }

  /** An identifier is duplicated exactly as many times as there are classes whose list
      consists of that identifier alone, and nothing else is duplicated. */
  lemma SingletonsCount(m: map<nat, seq<string>>, n: nat, id: string)
    ensures multiset(Singletons(m, n))[id] == |SingletonClassesOf(m, n, id)|
  {
    SingletonsCounted(m, n, id);
    SingletonClassesCounted(m, n, id);
  }

  lemma {:induction false} SingletonsCounted(m: map<nat, seq<string>>, n: nat, id: string)
    ensures multiset(Singletons(m, n))[id] == SingletonCount(m, n, id)
  {
    if n > 0 {
      SingletonsCounted(m, n - 1, id);
      SingletonsStep(m, n, id);
    }
  }

  lemma {:induction false} SingletonClassesCounted(m: map<nat, seq<string>>, n: nat, id: string)
    ensures |SingletonClassesOf(m, n, id)| == SingletonCount(m, n, id)
  {
    if n > 0 {
      SingletonClassesCounted(m, n - 1, id);
      SingletonClassesStep(m, n, id);
    }
  }

  lemma SingletonsStep(m: map<nat, seq<string>>, n: nat, id: string)
    requires n > 0
    ensures multiset(Singletons(m, n))[id] ==
              multiset(Singletons(m, n - 1))[id] + (if n - 1 in m && m[n - 1] == [id] then 1 else 0)
  {
    var extra := if n - 1 in m && |m[n - 1]| == 1 then [m[n - 1][0]] else [];
    assert multiset(Singletons(m, n)) == multiset(Singletons(m, n - 1)) + multiset(extra);
    if extra != [] {
      assert m[n - 1] == [m[n - 1][0]];
    }
  }

  lemma SingletonClassesStep(m: map<nat, seq<string>>, n: nat, id: string)
    requires n > 0
    ensures |SingletonClassesOf(m, n, id)| ==
              |SingletonClassesOf(m, n - 1, id)| + (if n - 1 in m && m[n - 1] == [id] then 1 else 0)
  {
    var prev := SingletonClassesOf(m, n - 1, id);
    if n - 1 in m && m[n - 1] == [id] {
      assert SingletonClassesOf(m, n, id) == prev + {n - 1};
    } else {
      assert SingletonClassesOf(m, n, id) == prev;
    }
  }

  /** A class list that names a single image, however many rows name it:
      `len(set(ids)) == 1`. */
  predicate OneImage(ids: seq<string>)
  {
    |ids| > 0 && forall j :: 0 <= j < |ids| ==> ids[j] == ids[0]
  }

  /** The corrected duplicates among classes 0..n-1: the image of every class whose list
      names a single image, in class order. */
  function SoleIds(m: map<nat, seq<string>>, n: nat): seq<string>
  {
    if n == 0 then []
    else SoleIds(m, n - 1) + (if n - 1 in m && OneImage(m[n - 1]) then [m[n - 1][0]] else [])
  }

  /** The corrected `ids_to_dup`, over the same classes as `DupIds`. */
  function DupIdsFixed(c: Catalog): seq<string>
  {
    SoleIds(c.catToIds, c.next + 1)
  }

  lemma {:induction false} SoleIdsMembers(m: map<nat, seq<string>>, n: nat, id: string)
    ensures id in SoleIds(m, n) <==> exists k :: 0 <= k < n && k in m && OneImage(m[k]) && m[k][0] == id
  {
    if n > 0 {
      SoleIdsMembers(m, n - 1, id);
    }
  }

  /** Every class index of a built catalog lies in 0..cat. */
  lemma {:induction false} BuildClassKeys(rows: seq<Row>, trainIds: set<string>, inc: bool, dIds: seq<string>)
    ensures var c := Build(rows, trainIds, inc, dIds);
      forall k :: k in c.catToIds ==> k <= c.next
  {
    var c := FromManifest(rows, trainIds);
    ClassesContiguous(rows, trainIds);
    if inc {
      var c1 := c.(landmarkToCat := c.landmarkToCat[DistractorLandmark := c.next],
                   catToLandmark := c.catToLandmark[c.next := DistractorLandmark]);
      AddDistractorIdsEffect(c1, c.next, dIds);
    }
  }

  /** Singleton duplication: an identifier is added to the training list once per class of
      the final catalog (distractor class included) whose list is exactly that identifier,
      and no other identifier is added. */
  lemma {:induction false} DupIdsAreSingletons(rows: seq<Row>, trainIds: set<string>, inc: bool, dIds: seq<string>, id: string)
    ensures var c := Build(rows, trainIds, inc, dIds);
      && multiset(DupIds(c))[id] == |set k: nat | k in c.catToIds && c.catToIds[k] == [id]|
      && (id in DupIds(c) <==> exists k :: k in c.catToIds && c.catToIds[k] == [id])
  {
    var c := Build(rows, trainIds, inc, dIds);
    BuildClassKeys(rows, trainIds, inc, dIds);
    SingletonsCount(c.catToIds, c.next + 1, id);
    assert SingletonClassesOf(c.catToIds, c.next + 1, id) == set k: nat | k in c.catToIds && c.catToIds[k] == [id];
    assert id in DupIds(c) <==> multiset(DupIds(c))[id] > 0;
    if exists k :: k in c.catToIds && c.catToIds[k] == [id] {
      var k :| k in c.catToIds && c.catToIds[k] == [id];
      assert k in SingletonClassesOf(c.catToIds, c.next + 1, id);
    }
  }

  /** Corrected duplication: an identifier is duplicated exactly when some class of the
      final catalog names it as its only image. */
  lemma {:induction false} DupIdsFixedMembers(rows: seq<Row>, trainIds: set<string>, inc: bool, dIds: seq<string>, id: string)
    ensures var c := Build(rows, trainIds, inc, dIds);
      id in DupIdsFixed(c) <==> exists k :: k in c.catToIds && OneImage(c.catToIds[k]) && c.catToIds[k][0] == id
  {
    var c := Build(rows, trainIds, inc, dIds);
    BuildClassKeys(rows, trainIds, inc, dIds);
    SoleIdsMembers(c.catToIds, c.next + 1, id);
  }

  /** Every identifier in a class list of a built catalog is a training image stem or,
      with distractors, a distractor identifier. */
  lemma {:induction false} ClassListIdsListed(rows: seq<Row>, trainIds: set<string>, inc: bool, dIds: seq<string>)
    ensures var c := Build(rows, trainIds, inc, dIds);
      forall k, id :: k in c.catToIds && id in c.catToIds[k] ==>
        && (id in trainIds || (inc && id in dIds))
        && id in c.idToCat
  {
    var c := FromManifest(rows, trainIds);
    OnlyListedIdsKept(rows, trainIds);
    if inc {
      var c1 := c.(landmarkToCat := c.landmarkToCat[DistractorLandmark := c.next],
                   catToLandmark := c.catToLandmark[c.next := DistractorLandmark]);
      AddDistractorIdsEffect(c1, c.next, dIds);
      var c' := WithDistractors(c, dIds);
      forall k, id | k in c'.catToIds && id in c'.catToIds[k]
        ensures (id in trainIds || id in dIds) && id in c'.idToCat
      {
        if k == c.next {
          assert c'.catToIds[k] == Get(c.catToIds, k) + dIds;
        }
      }
    }
  }

  // ---------------------------------------------------------------------------
  // The training list
  // ---------------------------------------------------------------------------

  /** The image files `<dir>/<stem>.jpg` for the given stems, in listing order. */
  function Files(dir: string, stems: seq<string>): (fs: seq<Item>)
    ensures |fs| == |stems|
    ensures forall j :: 0 <= j < |stems| ==> fs[j] == File(dir, stems[j])
  {
    seq(|stems|, j requires 0 <= j < |stems| => File(dir, stems[j]))
  }

  /** The training list as train.py:222-225 builds it: `ids_to_dup` holds identifier
      strings, so each duplicate enters the list of paths as a bare identifier. */
  function TrainListAsWritten(c: Catalog, trainStems: seq<string>, inc: bool, distractorStems: seq<string>): seq<Item>
  {
    var dups := DupIds(c);
    Files(TrainDir, trainStems)
      + seq(|dups|, j requires 0 <= j < |dups| => BareId(dups[j]))
      + (if inc then Files(DistractorDir, distractorStems) else [])
  }

  /** The image file a duplicated identifier names: the training file when there is one,
      otherwise the distractor file. */
  function DupFile(id: string, trainStems: seq<string>): Item
  {
    File(if id in trainStems then TrainDir else DistractorDir, id)
  }

  /** The corrected training list: the corrected duplicates, each entered as the image
      file it names. */
  function TrainList(c: Catalog, trainStems: seq<string>, inc: bool, distractorStems: seq<string>): seq<Item>
  {
    var dups := DupIdsFixed(c);
    Files(TrainDir, trainStems)
      + seq(|dups|, j requires 0 <= j < |dups| => DupFile(dups[j], trainStems))
      + (if inc then Files(DistractorDir, distractorStems) else [])
  }

  /** The image files that exist: the training directory and, with distractors, the
      distractor directory. */
  function ListedFiles(trainStems: seq<string>, inc: bool, distractorStems: seq<string>): seq<Item>
  {
    Files(TrainDir, trainStems) + (if inc then Files(DistractorDir, distractorStems) else [])
  }

  /** A file path always contains the directory separator. */
  lemma FilePathHasSeparator(dir: string, id: string)
    ensures '/' in PathOf(File(dir, id))
  {
    assert PathOf(File(dir, id))[|dir|] == '/';
  }

  /** As written, every duplicate is a bare identifier, and for an identifier without a
      separator its path is not the path of any image file: the decoders cannot open it. */
  lemma {:induction false} DuplicatesAreBareIds(c: Catalog, trainStems: seq<string>, inc: bool, distractorStems: seq<string>)
    ensures var l := TrainListAsWritten(c, trainStems, inc, distractorStems);
      var dups := DupIds(c);
      forall j :: 0 <= j < |dups| ==>
        && l[|trainStems| + j] == BareId(dups[j])
        && ('/' !in dups[j] ==> forall f :: f in ListedFiles(trainStems, inc, distractorStems) ==> PathOf(f) != dups[j])
  {
    var dups := DupIds(c);
    forall j, f | 0 <= j < |dups| && '/' !in dups[j] && f in ListedFiles(trainStems, inc, distractorStems)
      ensures PathOf(f) != dups[j]
    {
      FilePathHasSeparator(f.dir, f.id);
    }
  }

  /** The smallest manifest that shows it: one kept row for landmark 10 makes a singleton
      class, and its duplicate is the path "a", which is no image file. */
  lemma DuplicateIsNotAFile()
    ensures var c := Build([Row("\"a\"", 10)], {"a"}, false, []);
      var l := TrainListAsWritten(c, ["a"], false, []);
      && l == [File(TrainDir, "a"), BareId("a")]
      && PathOf(l[1]) == "a" && PathOf(l[0]) == "train-dl/a.jpg"
  {
    var c := Build([Row("\"a\"", 10)], {"a"}, false, []);
    assert Unquote("\"a\"") == "a";
    assert [Row("\"a\"", 10)][..0] == [];
    assert c == AddEntry(Empty, "a", 10);
    assert ClassFor(Empty, 10) == 0;
    assert Get(Empty.catToIds, 0) == [];
    assert c.catToIds == Empty.catToIds[0 := [] + ["a"]];
    assert [] + ["a"] == ["a"];
    assert 0 in c.catToIds && c.catToIds[0] == ["a"] && 1 !in c.catToIds && c.next == 1;
    assert Singletons(c.catToIds, 0) == [];
    assert Singletons(c.catToIds, 1) == ["a"];
    assert Singletons(c.catToIds, 2) == ["a"];
  }

  /** Corrected: every entry of the training list is an existing image file, and the
      duplicates follow the listed files in class order. */
  lemma {:induction false} TrainListIsListedFiles(rows: seq<Row>, trainStems: seq<string>, inc: bool,
                                                  distractorIds: seq<string>, distractorStems: seq<string>)
    requires forall id :: id in distractorIds ==> id in distractorStems
    ensures var c := Build(rows, (set s | s in trainStems), inc, distractorIds);
      var l := TrainList(c, trainStems, inc, distractorStems);
      && |l| == |trainStems| + |DupIdsFixed(c)| + (if inc then |distractorStems| else 0)
      && forall item :: item in l ==> item in ListedFiles(trainStems, inc, distractorStems)
  {
    var trainIds := set s | s in trainStems;
    var c := Build(rows, trainIds, inc, distractorIds);
    var dups := DupIdsFixed(c);
    var listed := ListedFiles(trainStems, inc, distractorStems);
    ClassListIdsListed(rows, trainIds, inc, distractorIds);
    forall j | 0 <= j < |dups|
      ensures DupFile(dups[j], trainStems) in listed
    {
      var id := dups[j];
      DupIdsFixedMembers(rows, trainIds, inc, distractorIds, id);
      var k :| k in c.catToIds && OneImage(c.catToIds[k]) && c.catToIds[k][0] == id;
      assert id in c.catToIds[k];
      assert id in trainIds || (inc && id in distractorIds);
      if id in trainStems {
        var t :| 0 <= t < |trainStems| && trainStems[t] == id;
        assert listed[t] == File(TrainDir, id);
      } else {
        assert inc && id in distractorStems;
        var t :| 0 <= t < |distractorStems| && distractorStems[t] == id;
        assert listed[|trainStems| + t] == File(DistractorDir, id);
      }
    }
  }

  // ---------------------------------------------------------------------------
  // Class of every training entry
  // ---------------------------------------------------------------------------

  /** `TRAIN_CATS` (train.py:234): the class of every entry, or None when `get_class`
      raises because some entry's identifier is not catalogued. */
  function TrainCats(c: Catalog, items: seq<Item>): (r: Option<seq<nat>>)
    ensures r.Some? <==> forall j :: 0 <= j < |items| ==> IdOf(items[j]) in c.idToCat
    ensures r.Some? ==> |r.value| == |items| && forall j :: 0 <= j < |items| ==> r.value[j] == c.idToCat[IdOf(items[j])]
  {
    if items == [] then Some([])
    else
      var init := TrainCats(c, items[..|items| - 1]);
      var id := IdOf(items[|items| - 1]);
      if init.Some? && id in c.idToCat then Some(init.value + [c.idToCat[id]])
      else if init.Some? then None
      else
        assert exists j :: 0 <= j < |items| - 1 && IdOf(items[j]) !in c.idToCat by {
          var j :| 0 <= j < |items| - 1 && IdOf(items[..|items| - 1][j]) !in c.idToCat;
          assert items[..|items| - 1][j] == items[j];
        }
        None
  }

  /** The identifiers a built catalog knows: the kept manifest rows' and the distractors'. */
  lemma {:induction false} CataloguedIds(rows: seq<Row>, trainIds: set<string>, inc: bool, dIds: seq<string>)
    ensures var c := Build(rows, trainIds, inc, dIds);
      forall id :: id in c.idToCat <==>
        (id in trainIds && exists r :: r in rows && Unquote(r.quotedId) == id) || (inc && id in dIds)
  {
    var c0 := FromManifest(rows, trainIds);
    OnlyListedIdsKept(rows, trainIds);
    if inc {
      var c1 := c0.(landmarkToCat := c0.landmarkToCat[DistractorLandmark := c0.next],
                    catToLandmark := c0.catToLandmark[c0.next := DistractorLandmark]);
      AddDistractorIdsEffect(c1, c0.next, dIds);
    }
  }

  /** Every duplicated identifier is catalogued. */
  lemma {:induction false} DupIdsCatalogued(rows: seq<Row>, trainIds: set<string>, inc: bool, dIds: seq<string>)
    ensures var c := Build(rows, trainIds, inc, dIds);
      forall id :: id in DupIds(c) ==> id in c.idToCat
  {
    var c := Build(rows, trainIds, inc, dIds);
    ClassListIdsListed(rows, trainIds, inc, dIds);
    forall id | id in DupIds(c)
      ensures id in c.idToCat
    {
      DupIdsAreSingletons(rows, trainIds, inc, dIds, id);
      var k :| k in c.catToIds && c.catToIds[k] == [id];
      assert id in c.catToIds[k];
    }
  }

  /** The corrected duplicates are catalogued too. */
  lemma {:induction false} DupIdsFixedCatalogued(rows: seq<Row>, trainIds: set<string>, inc: bool, dIds: seq<string>)
    ensures var c := Build(rows, trainIds, inc, dIds);
      forall id :: id in DupIdsFixed(c) ==> id in c.idToCat
  {
    var c := Build(rows, trainIds, inc, dIds);
    ClassListIdsListed(rows, trainIds, inc, dIds);
    forall id | id in DupIdsFixed(c)
      ensures id in c.idToCat
    {
      DupIdsFixedMembers(rows, trainIds, inc, dIds, id);
      var k :| k in c.catToIds && OneImage(c.catToIds[k]) && c.catToIds[k][0] == id;
      assert id in c.catToIds[k];
    }
  }

  /** A training list laid out as train.py:222-225 lays it out: one entry per training
      image stem, then m duplicates, then (with distractors) one entry per distractor
      image stem. */
  ghost predicate Shaped(l: seq<Item>, trainStems: seq<string>, m: nat, inc: bool, distractorStems: seq<string>)
  {
    && |l| == |trainStems| + m + (if inc then |distractorStems| else 0)
    && (forall t :: 0 <= t < |trainStems| ==> IdOf(l[t]) == trainStems[t])
    && (inc ==> forall t :: 0 <= t < |distractorStems| ==> IdOf(l[|trainStems| + m + t]) == distractorStems[t])
  }

  lemma AsWrittenShape(c: Catalog, trainStems: seq<string>, inc: bool, distractorStems: seq<string>)
    ensures var l := TrainListAsWritten(c, trainStems, inc, distractorStems);
      && Shaped(l, trainStems, |DupIds(c)|, inc, distractorStems)
      && forall j :: 0 <= j < |DupIds(c)| ==> IdOf(l[|trainStems| + j]) == DupIds(c)[j]
  {
  }

  lemma TrainListShape(c: Catalog, trainStems: seq<string>, inc: bool, distractorStems: seq<string>)
    ensures var l := TrainList(c, trainStems, inc, distractorStems);
      && Shaped(l, trainStems, |DupIdsFixed(c)|, inc, distractorStems)
      && forall j :: 0 <= j < |DupIdsFixed(c)| ==> IdOf(l[|trainStems| + j]) == DupIdsFixed(c)[j]
  {
  }

  /** An image stem of the listing has its own entry, outside the duplicates. */
  lemma StemPosition(l: seq<Item>, trainStems: seq<string>, m: nat, inc: bool, distractorStems: seq<string>, x: string)
    returns (p: nat)
    requires Shaped(l, trainStems, m, inc, distractorStems)
    requires x in trainStems || (inc && x in distractorStems)
    ensures p < |l| && IdOf(l[p]) == x && (p < |trainStems| || p >= |trainStems| + m)
  {
    if x in trainStems {
      var t :| 0 <= t < |trainStems| && trainStems[t] == x;
      p := t;
    } else {
      var t :| 0 <= t < |distractorStems| && distractorStems[t] == x;
      p := |trainStems| + m + t;
    }
  }

  /** When the duplicates and the distractor stems are catalogued, `get_class` succeeds
      on the whole list exactly when every training stem is catalogued. */
  lemma {:induction false} CatsDefinedByStems(c: Catalog, l: seq<Item>, trainStems: seq<string>, m: nat, inc: bool,
                                              distractorStems: seq<string>)
    requires Shaped(l, trainStems, m, inc, distractorStems)
    requires forall j :: |trainStems| <= j < |trainStems| + m ==> IdOf(l[j]) in c.idToCat
    requires inc ==> forall s :: s in distractorStems ==> s in c.idToCat
    ensures TrainCats(c, l).Some? <==> forall s :: s in trainStems ==> s in c.idToCat
  {
    var n := |trainStems|;
    if forall s :: s in trainStems ==> s in c.idToCat {
      forall j | 0 <= j < |l|
        ensures IdOf(l[j]) in c.idToCat
      {
        if j < n {
          assert trainStems[j] in trainStems;
        } else if j >= n + m {
          assert distractorStems[j - n - m] in distractorStems;
        }
      }
    } else {
      var s :| s in trainStems && s !in c.idToCat;
      var t :| 0 <= t < n && trainStems[t] == s;
      assert IdOf(l[t]) !in c.idToCat;
    }
  }

  /** `get_class` succeeds on the as-written list exactly when every training stem is
      catalogued. */
  lemma {:induction false} AsWrittenCatsDefined(rows: seq<Row>, trainStems: seq<string>, inc: bool,
                                                distractorIds: seq<string>, distractorStems: seq<string>)
    requires inc ==> forall id :: id in distractorStems <==> id in distractorIds
    ensures var c := Build(rows, (set s | s in trainStems), inc, distractorIds);
      TrainCats(c, TrainListAsWritten(c, trainStems, inc, distractorStems)).Some? <==>
        forall s :: s in trainStems ==> s in c.idToCat
  {
    var trainIds := set s | s in trainStems;
    var c := Build(rows, trainIds, inc, distractorIds);
    CataloguedIds(rows, trainIds, inc, distractorIds);
    DupIdsCatalogued(rows, trainIds, inc, distractorIds);
    var l := TrainListAsWritten(c, trainStems, inc, distractorStems);
    AsWrittenShape(c, trainStems, inc, distractorStems);
    var n := |trainStems|;
    forall j | n <= j < n + |DupIds(c)|
      ensures IdOf(l[j]) in c.idToCat
    {
      assert IdOf(l[n + (j - n)]) == DupIds(c)[j - n];
      assert DupIds(c)[j - n] in DupIds(c);
    }
    CatsDefinedByStems(c, l, trainStems, |DupIds(c)|, inc, distractorStems);
  }

  /** `get_class` succeeds on the corrected list exactly when every training stem is
      catalogued. */
  lemma {:induction false} TrainListCatsDefined(rows: seq<Row>, trainStems: seq<string>, inc: bool,
                                                distractorIds: seq<string>, distractorStems: seq<string>)
    requires inc ==> forall id :: id in distractorStems <==> id in distractorIds
    ensures var c := Build(rows, (set s | s in trainStems), inc, distractorIds);
      TrainCats(c, TrainList(c, trainStems, inc, distractorStems)).Some? <==>
        forall s :: s in trainStems ==> s in c.idToCat
  {
    var trainIds := set s | s in trainStems;
    var c := Build(rows, trainIds, inc, distractorIds);
    CataloguedIds(rows, trainIds, inc, distractorIds);
    DupIdsFixedCatalogued(rows, trainIds, inc, distractorIds);
    var l := TrainList(c, trainStems, inc, distractorStems);
    TrainListShape(c, trainStems, inc, distractorStems);
    var n := |trainStems|;
    forall j | n <= j < n + |DupIdsFixed(c)|
      ensures IdOf(l[j]) in c.idToCat
    {
      assert IdOf(l[n + (j - n)]) == DupIdsFixed(c)[j - n];
      assert DupIdsFixed(c)[j - n] in DupIdsFixed(c);
    }
    CatsDefinedByStems(c, l, trainStems, |DupIdsFixed(c)|, inc, distractorStems);
  }

  /** `get_class` succeeds on the whole training list, as written (train.py:222-234) and
      corrected alike, exactly when every training image has a manifest row or shares
      its stem with a distractor: duplicates and distractors are always catalogued, so an
      image without a row is the only way it fails. */
  lemma {:induction false} TrainCatsDefinedIff(rows: seq<Row>, trainStems: seq<string>, inc: bool,
                                               distractorIds: seq<string>, distractorStems: seq<string>)
    requires inc ==> forall id :: id in distractorStems <==> id in distractorIds
    ensures var c := Build(rows, (set s | s in trainStems), inc, distractorIds);
      var covered := forall s :: s in trainStems ==>
                       (exists r :: r in rows && Unquote(r.quotedId) == s) || (inc && s in distractorIds);
      && (TrainCats(c, TrainListAsWritten(c, trainStems, inc, distractorStems)).Some? <==> covered)
      && (TrainCats(c, TrainList(c, trainStems, inc, distractorStems)).Some? <==> covered)
  {
    var trainIds := set s | s in trainStems;
    var c := Build(rows, trainIds, inc, distractorIds);
    CataloguedIds(rows, trainIds, inc, distractorIds);
    AsWrittenCatsDefined(rows, trainStems, inc, distractorIds, distractorStems);
    TrainListCatsDefined(rows, trainStems, inc, distractorIds, distractorStems);
    assert forall s :: s in trainStems ==> (s in c.idToCat <==>
      (exists r :: r in rows && Unquote(r.quotedId) == s) || (inc && s in distractorIds));
  }

  // ---------------------------------------------------------------------------
  // Every class at least twice (the purpose of the duplication)
  // ---------------------------------------------------------------------------

  /** Rows naming the same image agree on its landmark. */
  ghost predicate ConsistentRows(kept: seq<Entry>)
  {
    forall i, j :: 0 <= i < |kept| && 0 <= j < |kept| && kept[i].id == kept[j].id ==> kept[i].landmark == kept[j].landmark
  }

  /** No image is named by two kept rows. */
  ghost predicate DistinctIds(kept: seq<Entry>)
  {
    forall i, j :: 0 <= i < j < |kept| ==> kept[i].id != kept[j].id
  }

  ghost predicate NoRepeats(s: seq<string>)
  {
    forall i, j :: 0 <= i < j < |s| ==> s[i] != s[j]
  }

  lemma ConsistentFromDistinct(kept: seq<Entry>)
    requires DistinctIds(kept)
    ensures ConsistentRows(kept)
  {
  }

  /** Class k's list is that of a landmark of the kept rows, so it is not empty; with
      consistent rows each identifier on it has class k. */
  lemma RepresentedClassLabelled(c: Catalog, kept: seq<Entry>, k: nat)
    requires Represents(c, kept) && ConsistentRows(kept) && k in c.catToIds
    ensures c.catToIds[k] != []
    ensures forall id :: id in c.catToIds[k] ==> id in c.idToCat && c.idToCat[id] == k
  {
    var d := Distinct(LandmarksOf(kept));
    assert k < |d|;
    var l := d[k];
    assert c.catToIds[k] == IdsWith(kept, l) && c.landmarkToCat[l] == k;
    IdsWithMembers(kept, l);
    assert l in LandmarksOf(kept);
    var j :| 0 <= j < |kept| && LandmarksOf(kept)[j] == l;
    assert kept[j] == Entry(kept[j].id, l);
    assert kept[j].id in c.catToIds[k];
    forall id | id in c.catToIds[k]
      ensures id in c.idToCat && c.idToCat[id] == k
    {
      assert Entry(id, l) in kept;
      var i1 :| 0 <= i1 < |kept| && kept[i1] == Entry(id, l);
      assert id in c.idToCat;
      var i2 :| 0 <= i2 < |kept| && kept[i2] == Entry(id, c.idToLandmark[id]);
      assert kept[i1].id == kept[i2].id;
    }
  }

  /** With consistent rows and distractors that are not training images, no class list of
      the final catalog is empty, and every identifier on class k's list has class k. */
  lemma {:induction false} ClassListsLabelled(rows: seq<Row>, trainIds: set<string>, inc: bool, dIds: seq<string>)
    requires ConsistentRows(Kept(rows, trainIds))
    requires inc ==> forall id :: id in dIds ==> id !in trainIds
    ensures var c := Build(rows, trainIds, inc, dIds);
      forall k :: k in c.catToIds ==>
        && c.catToIds[k] != []
        && forall id :: id in c.catToIds[k] ==> id in c.idToCat && c.idToCat[id] == k
  {
    var kept := Kept(rows, trainIds);
    var c0 := FromManifest(rows, trainIds);
    FromManifestRepresents(rows, trainIds);
    forall k | k in c0.catToIds
      ensures c0.catToIds[k] != [] && forall id :: id in c0.catToIds[k] ==> id in c0.idToCat && c0.idToCat[id] == k
    {
      RepresentedClassLabelled(c0, kept, k);
    }
    if inc {
      var c1 := c0.(landmarkToCat := c0.landmarkToCat[DistractorLandmark := c0.next],
                    catToLandmark := c0.catToLandmark[c0.next := DistractorLandmark]);
      var c := AddDistractorIds(c1, c0.next, dIds);
      assert c == Build(rows, trainIds, inc, dIds);
      ClassesContiguous(rows, trainIds);
      OnlyListedIdsKept(rows, trainIds);
      AddDistractorIdsLists(c1, c0.next, dIds);
      AddDistractorIdsIds(c1, c0.next, dIds);
      forall k | k in c.catToIds
        ensures c.catToIds[k] != [] && forall id :: id in c.catToIds[k] ==> id in c.idToCat && c.idToCat[id] == k
      {
        if k == c0.next {
          assert c0.next !in c1.catToIds;
          assert c.catToIds[k] == dIds;
        } else {
          forall id | id in c.catToIds[k]
            ensures id in c.idToCat && c.idToCat[id] == k
          {
            assert id in trainIds;
            AddDistractorIdsKeepsOtherIds(c1, c0.next, dIds, id);
          }
        }
      }
    }
  }

  /** When no image is named twice, a landmark's identifiers are distinct. */
  lemma {:induction false} IdsWithNoRepeats(es: seq<Entry>, l: int)
    requires DistinctIds(es)
    ensures NoRepeats(IdsWith(es, l))
  {
    if es != [] {
      var init, e := es[..|es| - 1], es[|es| - 1];
      assert DistinctIds(init) by {
        forall i, j | 0 <= i < j < |init|
          ensures init[i].id != init[j].id
        {
          assert init[i] == es[i] && init[j] == es[j];
        }
      }
      IdsWithNoRepeats(init, l);
      IdsWithMembers(init, l);
      if e.landmark == l && e.id in IdsWith(init, l) {
        assert false;
      }
      var ids := IdsWith(es, l);
      assert ids == IdsWith(init, l) + (if e.landmark == l then [e.id] else []);
    }
  }

  /** When no image is named twice and the distractors are distinct, no class list of the
      final catalog repeats an identifier, so a one-element list is the only list naming a
      single image. */
  lemma {:induction false} ClassListsNoRepeats(rows: seq<Row>, trainIds: set<string>, inc: bool, dIds: seq<string>)
    requires DistinctIds(Kept(rows, trainIds))
    requires inc ==> NoRepeats(dIds)
    ensures var c := Build(rows, trainIds, inc, dIds);
      forall k :: k in c.catToIds ==> NoRepeats(c.catToIds[k])
  {
    var kept := Kept(rows, trainIds);
    var c0 := FromManifest(rows, trainIds);
    var d := Distinct(LandmarksOf(kept));
    FromManifestRepresents(rows, trainIds);
    forall k | k in c0.catToIds
      ensures NoRepeats(c0.catToIds[k])
    {
      IdsWithNoRepeats(kept, d[k]);
    }
    if inc {
      var c1 := c0.(landmarkToCat := c0.landmarkToCat[DistractorLandmark := c0.next],
                    catToLandmark := c0.catToLandmark[c0.next := DistractorLandmark]);
      var c := AddDistractorIds(c1, c0.next, dIds);
      assert c == Build(rows, trainIds, inc, dIds);
      ClassesContiguous(rows, trainIds);
      AddDistractorIdsLists(c1, c0.next, dIds);
      forall k | k in c.catToIds
        ensures NoRepeats(c.catToIds[k])
      {
        if k == c0.next {
          assert c0.next !in c1.catToIds;
          assert c.catToIds[k] == dIds;
        }
      }
    }
  }

  /** Two entries of class k make class k occur at least twice in the class list. */
  lemma {:induction false} TwoOfClass(c: Catalog, l: seq<Item>, k: nat, p: nat, q: nat)
    requires p < |l| && q < |l| && p != q
    requires TrainCats(c, l).Some?
    requires IdOf(l[p]) in c.idToCat && c.idToCat[IdOf(l[p])] == k
    requires IdOf(l[q]) in c.idToCat && c.idToCat[IdOf(l[q])] == k
    ensures multiset(TrainCats(c, l).value)[k] >= 2
  {
    var s := TrainCats(c, l).value;
    var lo, hi := if p < q then p else q, if p < q then q else p;
    assert s == s[..hi] + [s[hi]] + s[hi + 1..];
    assert s[..hi][lo] == k;
    assert multiset(s[..hi])[k] >= 1;
  }

  /** Class k occurs twice in the class list of a list shaped like the training list when
      its first image has a duplicate or its list names a second image. */
  lemma {:induction false} ClassTwice(c: Catalog, l: seq<Item>, trainStems: seq<string>, dups: seq<string>, inc: bool,
                                      distractorStems: seq<string>, k: nat)
    requires Shaped(l, trainStems, |dups|, inc, distractorStems)
    requires forall j :: 0 <= j < |dups| ==> IdOf(l[|trainStems| + j]) == dups[j]
    requires TrainCats(c, l).Some?
    requires k in c.catToIds && c.catToIds[k] != []
    requires forall id :: id in c.catToIds[k] ==> id in c.idToCat && c.idToCat[id] == k
    requires forall id :: id in c.catToIds[k] ==> id in trainStems || (inc && id in distractorStems)
    requires c.catToIds[k][0] in dups || exists i :: 0 <= i < |c.catToIds[k]| && c.catToIds[k][i] != c.catToIds[k][0]
    ensures multiset(TrainCats(c, l).value)[k] >= 2
  {
    var L := c.catToIds[k];
    var x := L[0];
    assert x in L;
    var p := StemPosition(l, trainStems, |dups|, inc, distractorStems, x);
    if x in dups {
      var j :| 0 <= j < |dups| && dups[j] == x;
      TwoOfClass(c, l, k, p, |trainStems| + j);
    } else {
      var i :| 0 <= i < |L| && L[i] != x;
      assert L[i] in L;
      var q := StemPosition(l, trainStems, |dups|, inc, distractorStems, L[i]);
      TwoOfClass(c, l, k, p, q);
    }
  }

  /** Corrected: every class of the final catalog occurs at least twice in `TRAIN_CATS`
      of the corrected list, which is what a stratified split needs. The rows must agree
      on each image's landmark, every training image must have a row, and the distractors
      must not be training images. Repeated rows for one image are allowed. */
  lemma {:induction false} EveryClassTwice(rows: seq<Row>, trainStems: seq<string>, inc: bool,
                                           distractorIds: seq<string>, distractorStems: seq<string>)
    requires ConsistentRows(Kept(rows, set s | s in trainStems))
    requires forall s :: s in trainStems ==> exists r :: r in rows && Unquote(r.quotedId) == s
    requires inc ==> forall id :: id in distractorIds ==> id !in trainStems
    requires inc ==> forall id :: id in distractorStems <==> id in distractorIds
    ensures var c := Build(rows, (set s | s in trainStems), inc, distractorIds);
      var cats := TrainCats(c, TrainList(c, trainStems, inc, distractorStems));
      && cats.Some?
      && forall k :: k in c.catToIds ==> multiset(cats.value)[k] >= 2
  {
    var trainIds := set s | s in trainStems;
    var c := Build(rows, trainIds, inc, distractorIds);
    var l := TrainList(c, trainStems, inc, distractorStems);
    var dups := DupIdsFixed(c);
    var n := |trainStems|;
    TrainCatsDefinedIff(rows, trainStems, inc, distractorIds, distractorStems);
    ClassListsLabelled(rows, trainIds, inc, distractorIds);
    ClassListIdsListed(rows, trainIds, inc, distractorIds);
    TrainListShape(c, trainStems, inc, distractorStems);
    forall k | k in c.catToIds
      ensures multiset(TrainCats(c, l).value)[k] >= 2
    {
      var L := c.catToIds[k];
      if OneImage(L) {
        DupIdsFixedMembers(rows, trainIds, inc, distractorIds, L[0]);
      }
      ClassTwice(c, l, trainStems, dups, inc, distractorStems, k);
    }
  }

  /** As written: when no image is named by two rows and the distractors are distinct,
      every class of the final catalog occurs at least twice in `TRAIN_CATS`. */
  lemma {:induction false} EveryClassTwiceAsWritten(rows: seq<Row>, trainStems: seq<string>, inc: bool,
                                                    distractorIds: seq<string>, distractorStems: seq<string>)
    requires DistinctIds(Kept(rows, set s | s in trainStems))
    requires forall s :: s in trainStems ==> exists r :: r in rows && Unquote(r.quotedId) == s
    requires inc ==> NoRepeats(distractorIds) && forall id :: id in distractorIds ==> id !in trainStems
    requires inc ==> forall id :: id in distractorStems <==> id in distractorIds
    ensures var c := Build(rows, (set s | s in trainStems), inc, distractorIds);
      var cats := TrainCats(c, TrainListAsWritten(c, trainStems, inc, distractorStems));
      && cats.Some?
      && forall k :: k in c.catToIds ==> multiset(cats.value)[k] >= 2
  {
    var trainIds := set s | s in trainStems;
    var c := Build(rows, trainIds, inc, distractorIds);
    var l := TrainListAsWritten(c, trainStems, inc, distractorStems);
    var dups := DupIds(c);
    var n := |trainStems|;
    ConsistentFromDistinct(Kept(rows, trainIds));
    TrainCatsDefinedIff(rows, trainStems, inc, distractorIds, distractorStems);
    ClassListsLabelled(rows, trainIds, inc, distractorIds);
    ClassListsNoRepeats(rows, trainIds, inc, distractorIds);
    ClassListIdsListed(rows, trainIds, inc, distractorIds);
    AsWrittenShape(c, trainStems, inc, distractorStems);
    forall k | k in c.catToIds
      ensures multiset(TrainCats(c, l).value)[k] >= 2
    {
      var L := c.catToIds[k];
      if |L| == 1 {
        assert L == [L[0]];
        DupIdsAreSingletons(rows, trainIds, inc, distractorIds, L[0]);
      } else {
        assert L[1] != L[0];
      }
      ClassTwice(c, l, trainStems, dups, inc, distractorStems, k);
    }
  }

  /** The manifest loop over three rows whose images all exist. */
  lemma ThreeRows(a: string, la: int, b: string, lb: int, d: string, ld: int, ids: set<string>)
    requires a in ids && b in ids && d in ids
    ensures FromManifest([Row("\"" + a + "\"", la), Row("\"" + b + "\"", lb), Row("\"" + d + "\"", ld)], ids)
      == AddEntry(AddEntry(AddEntry(Empty, a, la), b, lb), d, ld)
  {
    var rows := [Row("\"" + a + "\"", la), Row("\"" + b + "\"", lb), Row("\"" + d + "\"", ld)];
    UnquoteQuoted('"', a);
    UnquoteQuoted('"', b);
    UnquoteQuoted('"', d);
    assert ['"'] + a + ['"'] == "\"" + a + "\"";
    assert ['"'] + b + ['"'] == "\"" + b + "\"";
    assert ['"'] + d + ['"'] == "\"" + d + "\"";
    assert Unquote(rows[0].quotedId) == a && Unquote(rows[1].quotedId) == b && Unquote(rows[2].quotedId) == d;
    assert rows[..2][..1] == [rows[0]] && rows[..2] == [rows[0], rows[1]];
    assert [rows[0]][..0] == [];
    assert FromManifest([rows[0]], ids) == AddEntry(Empty, a, la);
    assert FromManifest(rows[..2], ids) == AddEntry(AddEntry(Empty, a, la), b, lb);
  }

  /** The class list of a list whose every identifier is catalogued with the class given. */
  lemma CatsOf(c: Catalog, l: seq<Item>, cats: seq<nat>)
    requires |cats| == |l|
    requires forall j :: 0 <= j < |l| ==> IdOf(l[j]) in c.idToCat && c.idToCat[IdOf(l[j])] == cats[j]
    ensures TrainCats(c, l) == Some(cats)
  {
    var r := TrainCats(c, l);
    assert r.Some?;
    assert forall j :: 0 <= j < |l| ==> r.value[j] == cats[j];
    assert r.value == cats;
  }

  /** The catalog of three rows whose images exist, the first two with one landmark and
      the third with another. */
  lemma TwoThenOneCatalog(x: string, y: string, z: string, l1: int, l2: int, ids: set<string>)
    requires x in ids && y in ids && z in ids && l1 != l2
    ensures var c := FromManifest([Row("\"" + x + "\"", l1), Row("\"" + y + "\"", l1), Row("\"" + z + "\"", l2)], ids);
      && c.catToIds == map[0 := [x, y], 1 := [z]] && c.next == 2
      && c.landmarkToCat == map[l1 := 0, l2 := 1]
      && c.idToCat == map[x := 0][y := 0][z := 1]
  {
    ThreeRows(x, l1, y, l1, z, l2, ids);
    var c1 := AddEntry(Empty, x, l1);
    assert ClassFor(Empty, l1) == 0 && Get(Empty.catToIds, 0) == [] && [] + [x] == [x];
    assert c1.landmarkToCat == map[l1 := 0] && c1.next == 1 && c1.catToIds == map[0 := [x]];
    var c2 := AddEntry(c1, y, l1);
    assert ClassFor(c1, l1) == 0 && Get(c1.catToIds, 0) == [x] && [x] + [y] == [x, y];
    assert c2.landmarkToCat == map[l1 := 0] && c2.next == 1;
    assert c2.catToIds == map[0 := [x]][0 := [x, y]] == map[0 := [x, y]];
    var c := AddEntry(c2, z, l2);
    assert ClassFor(c2, l2) == 1 && Get(c2.catToIds, 1) == [] && [] + [z] == [z];
    assert c.catToIds == map[0 := [x, y]][1 := [z]] == map[0 := [x, y], 1 := [z]];
  }

  /** The catalog of the rows (x, 10), (y, 10), (z, 20). */
  lemma TwoAndOneCatalog()
    ensures var c := Build([Row("\"x\"", 10), Row("\"y\"", 10), Row("\"z\"", 20)], {"x", "y", "z"}, false, []);
      && c.catToIds == map[0 := ["x", "y"], 1 := ["z"]] && c.next == 2
      && c.landmarkToCat == map[10 := 0, 20 := 1]
      && c.idToCat == map["x" := 0, "y" := 0, "z" := 1]
  {
    TwoThenOneCatalog("x", "y", "z", 10, 20, {"x", "y", "z"});
    assert "\"" + "x" + "\"" == "\"x\"" && "\"" + "y" + "\"" == "\"y\"" && "\"" + "z" + "\"" == "\"z\"";
  }

  /** The catalog of the rows (a, 10), (a, 10), (b, 20). */
  lemma RepeatedRowCatalog()
    ensures var c := Build([Row("\"a\"", 10), Row("\"a\"", 10), Row("\"b\"", 20)], {"a", "b"}, false, []);
      && c.catToIds == map[0 := ["a", "a"], 1 := ["b"]] && c.next == 2
      && c.idToCat == map["a" := 0, "b" := 1]
  {
    TwoThenOneCatalog("a", "a", "b", 10, 20, {"a", "b"});
    assert "\"" + "a" + "\"" == "\"a\"" && "\"" + "b" + "\"" == "\"b\"";
    assert map["a" := 0]["a" := 0]["b" := 1] == map["a" := 0, "b" := 1];
  }

  /** Two landmarks of two and one images: the singleton's image is listed twice, so both
      classes occur twice in `TRAIN_CATS`. */
  lemma SingletonScenario()
    ensures var c := Build([Row("\"x\"", 10), Row("\"y\"", 10), Row("\"z\"", 20)], {"x", "y", "z"}, false, []);
      var l := TrainListAsWritten(c, ["x", "y", "z"], false, []);
      && NClasses(c) == 2
      && l == [File(TrainDir, "x"), File(TrainDir, "y"), File(TrainDir, "z"), BareId("z")]
      && TrainCats(c, l) == Some([0, 0, 1, 1])
  {
    var c := Build([Row("\"x\"", 10), Row("\"y\"", 10), Row("\"z\"", 20)], {"x", "y", "z"}, false, []);
    TwoAndOneCatalog();
    assert Singletons(c.catToIds, 1) == [];
    assert Singletons(c.catToIds, 2) == ["z"];
    assert Singletons(c.catToIds, 3) == ["z"];
    var l := TrainListAsWritten(c, ["x", "y", "z"], false, []);
    assert l == [File(TrainDir, "x"), File(TrainDir, "y"), File(TrainDir, "z"), BareId("z")];
    assert IdOf(l[0]) == "x" && IdOf(l[1]) == "y" && IdOf(l[2]) == "z" && IdOf(l[3]) == "z";
    CatsOf(c, l, [0, 0, 1, 1]);
  }

  /** As written, a repeated manifest row defeats the duplication: rows (a, 10), (a, 10),
      (b, 20) give class 0 the list [a, a], which is not a one-element list, so `a` is not
      duplicated and class 0 occurs once in `TRAIN_CATS`. The corrected list holds `a`
      twice. */
  lemma RepeatedRowLeavesSingleton()
    ensures var c := Build([Row("\"a\"", 10), Row("\"a\"", 10), Row("\"b\"", 20)], {"a", "b"}, false, []);
      && 0 in c.catToIds && c.catToIds[0] == ["a", "a"]
      && TrainCats(c, TrainListAsWritten(c, ["a", "b"], false, [])) == Some([0, 1, 1])
      && TrainCats(c, TrainList(c, ["a", "b"], false, [])) == Some([0, 1, 0, 1])
  {
    var c := Build([Row("\"a\"", 10), Row("\"a\"", 10), Row("\"b\"", 20)], {"a", "b"}, false, []);
    RepeatedRowCatalog();
    AsWrittenRepeated(c);
    FixedRepeated(c);
  }

  lemma AsWrittenRepeated(c: Catalog)
    requires c.catToIds == map[0 := ["a", "a"], 1 := ["b"]] && c.next == 2
    requires c.idToCat == map["a" := 0, "b" := 1]
    ensures TrainCats(c, TrainListAsWritten(c, ["a", "b"], false, [])) == Some([0, 1, 1])
  {
    assert Singletons(c.catToIds, 1) == [];
    assert Singletons(c.catToIds, 2) == ["b"];
    assert Singletons(c.catToIds, 3) == ["b"];
    var l := TrainListAsWritten(c, ["a", "b"], false, []);
    assert l == [File(TrainDir, "a"), File(TrainDir, "b"), BareId("b")];
    assert IdOf(l[0]) == "a" && IdOf(l[1]) == "b" && IdOf(l[2]) == "b";
    CatsOf(c, l, [0, 1, 1]);
  }

  lemma FixedRepeated(c: Catalog)
    requires c.catToIds == map[0 := ["a", "a"], 1 := ["b"]] && c.next == 2
    requires c.idToCat == map["a" := 0, "b" := 1]
    ensures TrainCats(c, TrainList(c, ["a", "b"], false, [])) == Some([0, 1, 0, 1])
  {
    assert OneImage(["a", "a"]) && OneImage(["b"]);
    assert SoleIds(c.catToIds, 1) == ["a"];
    assert SoleIds(c.catToIds, 2) == ["a", "b"];
    assert SoleIds(c.catToIds, 3) == ["a", "b"];
    var l := TrainList(c, ["a", "b"], false, []);
    assert |l| == 4;
    assert IdOf(l[0]) == "a" && IdOf(l[1]) == "b" && IdOf(l[2]) == "a" && IdOf(l[3]) == "b";
    CatsOf(c, l, [0, 1, 0, 1]);
  }
}
