/** The label catalog built at start-up (train.py:165-234): manifest rows whose image file
    exists become entries of dense classes 0..cat-1, numbered in order of first appearance;
    an optional distractor class with landmark -1 is appended; and the sole member of every
    singleton class is added once more to the training list. */
module Catalog {
  import opened Items

  /** A manifest row after CSV parsing: column 0 (a quoted identifier) and column 2. */
  datatype Row = Row(quotedId: string, landmark: int)

  /** The landmark given to distractor images. */
  const DistractorLandmark: int := -1

  /** Directory the distractor images live in. */
  const DistractorDir: string := "distractors"

  /** The dictionaries the catalog loop fills, and its counter `cat`. */
  datatype Catalog = Catalog(
    idToLandmark: map<string, int>,
    idToCat: map<string, nat>,
    timesSeen: map<string, nat>,
    landmarkToIds: map<int, seq<string>>,
    catToIds: map<nat, seq<string>>,
    landmarkToCat: map<int, nat>,
    catToLandmark: map<nat, int>,
    next: nat)

  const Empty: Catalog := Catalog(map[], map[], map[], map[], map[], map[], map[], 0)


  /** Python's `s[1:-1]`: drops the quote characters around an identifier. */
  function Unquote(s: string): (r: string)
    ensures |s| >= 2 ==> [s[0]] + r + [s[|s| - 1]] == s
    ensures |s| < 2 ==> r == ""
  {
    if |s| >= 2 then s[1..|s| - 1] else ""
  }

  /** Quoting an identifier and unquoting it gives the identifier back. */
  lemma UnquoteQuoted(q: char, id: string)
    ensures Unquote([q] + id + [q]) == id
  {
    assert ([q] + id + [q])[1..|id| + 1] == id;
  }

  /** N_CLASSES: the number of distinct landmark keys. */
  function NClasses(c: Catalog): nat
  {
    |c.landmarkToCat|
  }

  // ---------------------------------------------------------------------------
  // The catalog as a function of the manifest (the specification of the loop)
  // ---------------------------------------------------------------------------

  /** One iteration of the manifest loop for a row whose image exists. */
  function AddEntry(c: Catalog, id: string, landmark: int): Catalog
  {
    var known := landmark in c.landmarkToCat;
    var k := ClassFor(c, landmark);
    Catalog(
      idToLandmark := c.idToLandmark[id := landmark],
      idToCat := c.idToCat[id := k],
      timesSeen := c.timesSeen[id := 0],
      landmarkToIds := c.landmarkToIds[landmark := Get(c.landmarkToIds, landmark) + [id]],
      catToIds := c.catToIds[k := Get(c.catToIds, k) + [id]],
      landmarkToCat := if known then c.landmarkToCat else c.landmarkToCat[landmark := k],
      catToLandmark := if known then c.catToLandmark else c.catToLandmark[k := landmark],
      next := if known then c.next else c.next + 1)
  }

  /** The class index a kept row with this landmark receives: its landmark's class if the
      landmark was seen before, otherwise the next free index. */
  function ClassFor(c: Catalog, l: int): nat
  {
    if l in c.landmarkToCat then c.landmarkToCat[l] else c.next
  }

  /** The catalog after the manifest loop (train.py:175-193). */
  function FromManifest(rows: seq<Row>, trainIds: set<string>): Catalog
  {
    if rows == [] then Empty
    else
      var c := FromManifest(rows[..|rows| - 1], trainIds);
      var r := rows[|rows| - 1];
      var id := Unquote(r.quotedId);
      if id in trainIds then AddEntry(c, id, r.landmark) else c
  }

  /** The distractor loop body, applied to a prefix of the distractor identifiers. */
  function AddDistractorIds(c: Catalog, k: nat, ids: seq<string>): Catalog
  {
    if ids == [] then c
    else
      var c0 := AddDistractorIds(c, k, ids[..|ids| - 1]);
      var id := ids[|ids| - 1];
      c0.(idToLandmark := c0.idToLandmark[id := DistractorLandmark],
          idToCat := c0.idToCat[id := k],
          timesSeen := c0.timesSeen[id := 0],
          landmarkToIds := c0.landmarkToIds[DistractorLandmark := Get(c0.landmarkToIds, DistractorLandmark) + [id]],
          catToIds := c0.catToIds[k := Get(c0.catToIds, k) + [id]])
  }

  /** The distractor class (train.py:195-206): landmark -1 gets index `cat`, which is not
      incremented, and every distractor identifier joins that class. */
  function WithDistractors(c: Catalog, ids: seq<string>): Catalog
  {
    var k := c.next;
    AddDistractorIds(c.(landmarkToCat := c.landmarkToCat[DistractorLandmark := k],
                        catToLandmark := c.catToLandmark[k := DistractorLandmark]), k, ids)
  }

  function Build(rows: seq<Row>, trainIds: set<string>, includeDistractors: bool, distractorIds: seq<string>): Catalog
  {
    var c := FromManifest(rows, trainIds);
    if includeDistractors then WithDistractors(c, distractorIds) else c
  }

  /** The catalog loop as the source runs it: the dictionaries and the counter are updated
      row by row. */
  method BuildCatalog(rows: seq<Row>, trainIds: set<string>, includeDistractors: bool, distractorIds: seq<string>)
    returns (c: Catalog)
    ensures c == Build(rows, trainIds, includeDistractors, distractorIds)
  {
    c := ReadManifest(rows, trainIds);
    if includeDistractors {
      c := AddDistractorClass(c, distractorIds);
    }
  }

  /** The manifest loop (train.py:175-193). */
  method ReadManifest(rows: seq<Row>, trainIds: set<string>) returns (c: Catalog)
    ensures c == FromManifest(rows, trainIds)
  {
    var idToLandmark: map<string, int> := map[];
    var idToCat: map<string, nat> := map[];
    var timesSeen: map<string, nat> := map[];
    var landmarkToIds: map<int, seq<string>> := map[];
    var catToIds: map<nat, seq<string>> := map[];
    var landmarkToCat: map<int, nat> := map[];
    var catToLandmark: map<nat, int> := map[];
    var cat: nat := 0;
    var i := 0;
    while i < |rows|
      invariant 0 <= i <= |rows|
      invariant Catalog(idToLandmark, idToCat, timesSeen, landmarkToIds, catToIds, landmarkToCat, catToLandmark, cat)
                == FromManifest(rows[..i], trainIds)
    {
      assert rows[..i + 1][..i] == rows[..i];
      var idx, landmark := Unquote(rows[i].quotedId), rows[i].landmark;
      if idx in trainIds {
        var landmarkCat: nat;
        if landmark in landmarkToCat {
          landmarkCat := landmarkToCat[landmark];
        } else {
          landmarkCat := cat;
          landmarkToCat := landmarkToCat[landmark := landmarkCat];
          catToLandmark := catToLandmark[cat := landmark];
          cat := cat + 1;
        }
        idToLandmark := idToLandmark[idx := landmark];
        idToCat := idToCat[idx := landmarkCat];
        timesSeen := timesSeen[idx := 0];
        landmarkToIds := landmarkToIds[landmark := Get(landmarkToIds, landmark) + [idx]];
        catToIds := catToIds[landmarkCat := Get(catToIds, landmarkCat) + [idx]];
      }
      i := i + 1;
    }
    assert rows[..i] == rows;
    c := Catalog(idToLandmark, idToCat, timesSeen, landmarkToIds, catToIds, landmarkToCat, catToLandmark, cat);
  }

  /** The distractor block (train.py:195-206): landmark -1 takes class `cat`, which is not
      incremented, and every distractor identifier is filed under it. */
  method AddDistractorClass(c: Catalog, distractorIds: seq<string>) returns (c': Catalog)
    ensures c' == WithDistractors(c, distractorIds)
  {
    var idToLandmark: map<string, int> := c.idToLandmark;
    var idToCat: map<string, nat> := c.idToCat;
    var timesSeen: map<string, nat> := c.timesSeen;
    var landmarkToIds: map<int, seq<string>> := c.landmarkToIds;
    var catToIds: map<nat, seq<string>> := c.catToIds;
    var landmark := DistractorLandmark;
    var landmarkCat: nat := c.next;
    var landmarkToCat := c.landmarkToCat[landmark := landmarkCat];
    var catToLandmark := c.catToLandmark[landmarkCat := landmark];
    ghost var start := Catalog(idToLandmark, idToCat, timesSeen, landmarkToIds, catToIds, landmarkToCat, catToLandmark, c.next);
    var j := 0;
    while j < |distractorIds|
      invariant 0 <= j <= |distractorIds|
      invariant Catalog(idToLandmark, idToCat, timesSeen, landmarkToIds, catToIds, landmarkToCat, catToLandmark, c.next)
                == AddDistractorIds(start, landmarkCat, distractorIds[..j])
    {
      assert distractorIds[..j + 1][..j] == distractorIds[..j];
      var idx := distractorIds[j];
      idToLandmark := idToLandmark[idx := landmark];
      idToCat := idToCat[idx := landmarkCat];
      timesSeen := timesSeen[idx := 0];
      landmarkToIds := landmarkToIds[landmark := Get(landmarkToIds, landmark) + [idx]];
      catToIds := catToIds[landmarkCat := Get(catToIds, landmarkCat) + [idx]];
      j := j + 1;
    }
    assert distractorIds[..j] == distractorIds;
    c' := Catalog(idToLandmark, idToCat, timesSeen, landmarkToIds, catToIds, landmarkToCat, catToLandmark, c.next);
  }


  // ---------------------------------------------------------------------------
  // Reference definitions: what the manifest loop is meant to compute
  // ---------------------------------------------------------------------------

  /** A manifest row that survived the image-file filter. */
  datatype Entry = Entry(id: string, landmark: int)

  /** The rows whose identifier has an image file, in manifest order. */
  function Kept(rows: seq<Row>, trainIds: set<string>): seq<Entry>
  {
    if rows == [] then []
    else
      var r := rows[|rows| - 1];
      var id := Unquote(r.quotedId);
      Kept(rows[..|rows| - 1], trainIds) + (if id in trainIds then [Entry(id, r.landmark)] else [])
  }

  function LandmarksOf(es: seq<Entry>): (ls: seq<int>)
    ensures |ls| == |es|
    ensures forall j :: 0 <= j < |es| ==> ls[j] == es[j].landmark
  {
    if es == [] then [] else LandmarksOf(es[..|es| - 1]) + [es[|es| - 1].landmark]
  }

  ghost predicate NoDuplicates(s: seq<int>)
  {
    forall i, j :: 0 <= i < j < |s| ==> s[i] != s[j]
  }

  /** The distinct values of a sequence in order of first appearance. */
  function Distinct(s: seq<int>): (d: seq<int>)
    ensures forall l :: l in d <==> l in s
    ensures NoDuplicates(d)
  {
    if s == [] then []
    else
      var d := Distinct(s[..|s| - 1]);
      assert s == s[..|s| - 1] + [s[|s| - 1]];
      if s[|s| - 1] in d then d else d + [s[|s| - 1]]
  }

  /** The identifiers of the entries with landmark l, in manifest order. */
  function IdsWith(es: seq<Entry>, l: int): seq<string>
  {
    if es == [] then []
    else IdsWith(es[..|es| - 1], l) + (if es[|es| - 1].landmark == l then [es[|es| - 1].id] else [])
  }

  /** The class maps hold exactly the distinct landmarks d: class k is d[k]. */
  ghost predicate ClassesMatch(lt: map<int, nat>, cl: map<nat, int>, next: nat, d: seq<int>)
  {
    && next == |d|
    && |lt| == |d|
    && (forall l :: l in lt <==> l in d)
    && (forall k: nat :: k in cl <==> k < |d|)
    && (forall k :: 0 <= k < |d| ==> cl[k] == d[k] && lt[d[k]] == k)
  }

  /** Every landmark's list holds its identifiers in manifest order. */
  ghost predicate LandmarkListsMatch(m: map<int, seq<string>>, kept: seq<Entry>, d: seq<int>)
  {
    && (forall l :: l in m <==> l in d)
    && (forall l :: l in m ==> m[l] == IdsWith(kept, l))
  }

  /** Class k's list holds the identifiers of landmark d[k] in manifest order. */
  ghost predicate ClassListsMatch(m: map<nat, seq<string>>, kept: seq<Entry>, d: seq<int>)
  {
    && (forall k: nat :: k in m <==> k < |d|)
    && (forall k :: 0 <= k < |d| ==> m[k] == IdsWith(kept, d[k]))
  }

  /** Every identifier of a kept row maps to its landmark and that landmark's class. */
  ghost predicate IdsMatch(idToLandmark: map<string, int>, idToCat: map<string, nat>, timesSeen: map<string, nat>,
                           lt: map<int, nat>, kept: seq<Entry>)
  {
    && idToCat.Keys == idToLandmark.Keys == timesSeen.Keys
    && (forall id :: id in idToCat <==> exists e :: e in kept && e.id == id)
    && (forall id :: id in timesSeen ==> timesSeen[id] == 0)
    && (forall id :: id in idToLandmark ==>
          && Entry(id, idToLandmark[id]) in kept
          && idToLandmark[id] in lt
          && idToCat[id] == lt[idToLandmark[id]])
  }

  /** The catalog c is exactly what the kept entries call for. */
  ghost predicate Represents(c: Catalog, kept: seq<Entry>)
  {
    var d := Distinct(LandmarksOf(kept));
    && ClassesMatch(c.landmarkToCat, c.catToLandmark, c.next, d)
    && LandmarkListsMatch(c.landmarkToIds, kept, d)
    && ClassListsMatch(c.catToIds, kept, d)
    && IdsMatch(c.idToLandmark, c.idToCat, c.timesSeen, c.landmarkToCat, kept)
  }

  // ---------------------------------------------------------------------------
  // Helper facts about the reference definitions
  // ---------------------------------------------------------------------------

  lemma {:induction false} IdsWithAbsent(es: seq<Entry>, l: int)
    requires l !in LandmarksOf(es)
    ensures IdsWith(es, l) == []
  {
    if es != [] {
      assert LandmarksOf(es) == LandmarksOf(es[..|es| - 1]) + [es[|es| - 1].landmark];
      IdsWithAbsent(es[..|es| - 1], l);
    }
  }

  lemma IdsWithAppend(es: seq<Entry>, e: Entry, x: int)
    ensures IdsWith(es + [e], x) == IdsWith(es, x) + (if e.landmark == x then [e.id] else [])
  {
    assert (es + [e])[..|es|] == es;
  }

  lemma AppendOneDistinct(es: seq<Entry>, e: Entry)
    ensures LandmarksOf(es + [e]) == LandmarksOf(es) + [e.landmark]
    ensures Distinct(LandmarksOf(es + [e])) ==
              var d := Distinct(LandmarksOf(es)); if e.landmark in d then d else d + [e.landmark]
  {
    assert (es + [e])[..|es|] == es;
    var ls := LandmarksOf(es);
    assert (ls + [e.landmark])[..|ls|] == ls;
  }

  lemma ClassesStepNew(lt: map<int, nat>, cl: map<nat, int>, next: nat, d: seq<int>, l: int)
    requires ClassesMatch(lt, cl, next, d) && l !in d
    ensures ClassesMatch(lt[l := next], cl[next := l], next + 1, d + [l])
  {
    var d' := d + [l];
    assert l !in lt;
    forall x
      ensures x in lt[l := next] <==> x in d'
    {
      assert x in d' <==> x in d || x == l;
    }
    forall j | 0 <= j < |d'|
      ensures cl[next := l][j] == d'[j] && lt[l := next][d'[j]] == j
    {
      if j < next {
        assert d'[j] == d[j];
        assert d[j] != l;
      }
    }
  }

  lemma ClassOfKnown(lt: map<int, nat>, cl: map<nat, int>, next: nat, d: seq<int>, l: int)
    requires ClassesMatch(lt, cl, next, d) && l in d
    ensures l in lt && lt[l] < |d| && d[lt[l]] == l
  {
    var j :| 0 <= j < |d| && d[j] == l;
    assert lt[d[j]] == j;
  }

  lemma LandmarkListsStep(m: map<int, seq<string>>, kept: seq<Entry>, d: seq<int>, id: string, l: int)
    requires LandmarkListsMatch(m, kept, d)
    requires l !in d ==> l !in LandmarksOf(kept)
    ensures LandmarkListsMatch(m[l := Get(m, l) + [id]], kept + [Entry(id, l)], if l in d then d else d + [l])
  {
    var m' := m[l := Get(m, l) + [id]];
    if l !in d {
      IdsWithAbsent(kept, l);
    }
    forall x | x in m'
      ensures m'[x] == IdsWith(kept + [Entry(id, l)], x)
    {
      IdsWithAppend(kept, Entry(id, l), x);
    }
  }

  lemma ClassListsStep(m: map<nat, seq<string>>, kept: seq<Entry>, d: seq<int>, k: nat, id: string, l: int)
    requires ClassListsMatch(m, kept, d)
    requires NoDuplicates(d)
    requires l !in d ==> l !in LandmarksOf(kept)
    requires k <= |d| && (k < |d| <==> l in d) && (k < |d| ==> d[k] == l)
    ensures ClassListsMatch(m[k := Get(m, k) + [id]], kept + [Entry(id, l)], if l in d then d else d + [l])
  {
    var d' := if l in d then d else d + [l];
    forall j | 0 <= j < |d'|
      ensures m[k := Get(m, k) + [id]][j] == IdsWith(kept + [Entry(id, l)], d'[j])
    {
      ClassListAt(m, kept, d, k, id, l, j);
    }
  }

  lemma ClassListAt(m: map<nat, seq<string>>, kept: seq<Entry>, d: seq<int>, k: nat, id: string, l: int, j: nat)
    requires ClassListsMatch(m, kept, d)
    requires NoDuplicates(d)
    requires l !in d ==> l !in LandmarksOf(kept)
    requires k <= |d| && (k < |d| <==> l in d) && (k < |d| ==> d[k] == l)
    requires j < |if l in d then d else d + [l]|
    ensures var d' := if l in d then d else d + [l];
      m[k := Get(m, k) + [id]][j] == IdsWith(kept + [Entry(id, l)], d'[j])
  {
    var d' := if l in d then d else d + [l];
    IdsWithAppend(kept, Entry(id, l), d'[j]);
    if j == k && l !in d {
      IdsWithAbsent(kept, l);
    } else if j != k {
      assert d'[j] == d[j];
    }
  }

  lemma IdsStep(idToLandmark: map<string, int>, idToCat: map<string, nat>, timesSeen: map<string, nat>,
                lt: map<int, nat>, lt': map<int, nat>, kept: seq<Entry>, id: string, l: int, k: nat)
    requires IdsMatch(idToLandmark, idToCat, timesSeen, lt, kept)
    requires forall x :: x in lt ==> x in lt' && lt'[x] == lt[x]
    requires l in lt' && lt'[l] == k
    ensures IdsMatch(idToLandmark[id := l], idToCat[id := k], timesSeen[id := 0], lt', kept + [Entry(id, l)])
  {
    var e := Entry(id, l);
    var kept' := kept + [e];
    var idToCat' := idToCat[id := k];
    forall x | x in idToCat'
      ensures exists e0 :: e0 in kept' && e0.id == x
    {
      if x == id {
        assert e in kept';
      } else {
        var e0 :| e0 in kept && e0.id == x;
        assert e0 in kept';
      }
    }
    forall e0 | e0 in kept'
      ensures e0.id in idToCat'
    {
      if e0 != e {
        assert e0 in kept;
      }
    }
    forall x | x in idToLandmark && x != id
      ensures Entry(x, idToLandmark[x]) in kept'
    {
      assert Entry(x, idToLandmark[x]) in kept;
    }
  }

  /** Adding one kept entry keeps the catalog in step with the kept entries. */
  lemma AddEntryRepresents(c: Catalog, kept: seq<Entry>, id: string, l: int)
    requires Represents(c, kept)
    ensures Represents(AddEntry(c, id, l), kept + [Entry(id, l)])
  {
    var d := Distinct(LandmarksOf(kept));
    var c' := AddEntry(c, id, l);
    var k := ClassFor(c, l);
    AppendOneDistinct(kept, Entry(id, l));
    assert l !in d ==> l !in LandmarksOf(kept);
    if l in d {
      ClassOfKnown(c.landmarkToCat, c.catToLandmark, c.next, d, l);
    } else {
      ClassesStepNew(c.landmarkToCat, c.catToLandmark, c.next, d, l);
    }
    LandmarkListsStep(c.landmarkToIds, kept, d, id, l);
    ClassListsStep(c.catToIds, kept, d, k, id, l);
    IdsStep(c.idToLandmark, c.idToCat, c.timesSeen, c.landmarkToCat, c'.landmarkToCat, kept, id, l, k);
  }

  lemma {:induction false} FromManifestRepresents(rows: seq<Row>, trainIds: set<string>)
    ensures Represents(FromManifest(rows, trainIds), Kept(rows, trainIds))
  {
    if rows == [] {
      assert Distinct(LandmarksOf([])) == [];
    } else {
      var init := rows[..|rows| - 1];
      FromManifestRepresents(init, trainIds);
      var r := rows[|rows| - 1];
      var id := Unquote(r.quotedId);
      var kept := Kept(init, trainIds);
      if id in trainIds {
        assert Kept(rows, trainIds) == kept + [Entry(id, r.landmark)];
        AddEntryRepresents(FromManifest(init, trainIds), kept, id, r.landmark);
      } else {
        assert Kept(rows, trainIds) == kept;
        assert FromManifest(rows, trainIds) == FromManifest(init, trainIds);
      }
    }
  }

  lemma {:induction false} KeptMembers(rows: seq<Row>, trainIds: set<string>)
    ensures forall e :: e in Kept(rows, trainIds) <==>
              e.id in trainIds && exists r :: r in rows && Unquote(r.quotedId) == e.id && r.landmark == e.landmark
  {
    if rows != [] {
      var init := rows[..|rows| - 1];
      KeptMembers(init, trainIds);
      assert rows == init + [rows[|rows| - 1]];
    }
  }

  // ---------------------------------------------------------------------------
  // Properties of the catalog built from the manifest
  // ---------------------------------------------------------------------------

  /** Only rows whose identifier has an image file are kept: an identifier is catalogued
      exactly when some manifest row names it and its image exists, and every class list
      holds only such identifiers. */
  lemma {:induction false} OnlyListedIdsKept(rows: seq<Row>, trainIds: set<string>)
    ensures var c := FromManifest(rows, trainIds);
      && (forall id :: id in c.idToCat <==>
            id in trainIds && exists r :: r in rows && Unquote(r.quotedId) == id)
      && (forall k, id :: k in c.catToIds && id in c.catToIds[k] ==> id in trainIds && id in c.idToCat)
  {
    var c := FromManifest(rows, trainIds);
    var kept := Kept(rows, trainIds);
    FromManifestRepresents(rows, trainIds);
    KeptMembers(rows, trainIds);
    forall id | id in trainIds && exists r :: r in rows && Unquote(r.quotedId) == id
      ensures id in c.idToCat
    {
      var r :| r in rows && Unquote(r.quotedId) == id;
      assert Entry(id, r.landmark) in kept;
    }
    forall k, id | k in c.catToIds && id in c.catToIds[k]
      ensures id in trainIds && id in c.idToCat
    {
      IdsWithMembers(kept, c.catToLandmark[k]);
      assert Entry(id, c.catToLandmark[k]) in kept;
    }
  }

  lemma {:induction false} IdsWithMembers(es: seq<Entry>, l: int)
    ensures forall id :: id in IdsWith(es, l) <==> Entry(id, l) in es
  {
    if es != [] {
      IdsWithMembers(es[..|es| - 1], l);
      assert es == es[..|es| - 1] + [es[|es| - 1]];
    }
  }

  /** Class indices are contiguous: exactly 0..cat-1 are classes, every landmark's class is
      below cat, and there are as many landmark keys as classes (N_CLASSES == cat). */
  lemma {:induction false} ClassesContiguous(rows: seq<Row>, trainIds: set<string>)
    ensures var c := FromManifest(rows, trainIds);
      && (forall k: nat :: k in c.catToLandmark <==> k < c.next)
      && (forall l :: l in c.landmarkToCat ==> c.landmarkToCat[l] < c.next)
      && NClasses(c) == c.next
      && (forall k: nat :: k in c.catToIds <==> k < c.next)
  {
    var c := FromManifest(rows, trainIds);
    FromManifestRepresents(rows, trainIds);
    var d := Distinct(LandmarksOf(Kept(rows, trainIds)));
    forall l | l in c.landmarkToCat
      ensures c.landmarkToCat[l] < c.next
    {
      var j :| 0 <= j < |d| && d[j] == l;
    }
  }

  /** `landmark_to_cat` and `cat_to_landmark` are mutual inverses. */
  lemma {:induction false} CatMapsInverse(rows: seq<Row>, trainIds: set<string>)
    ensures var c := FromManifest(rows, trainIds);
      && (forall l :: l in c.landmarkToCat ==>
            c.landmarkToCat[l] in c.catToLandmark && c.catToLandmark[c.landmarkToCat[l]] == l)
      && (forall k :: k in c.catToLandmark ==>
            c.catToLandmark[k] in c.landmarkToCat && c.landmarkToCat[c.catToLandmark[k]] == k)
  {
    var c := FromManifest(rows, trainIds);
    FromManifestRepresents(rows, trainIds);
    ClassesMatchInverse(c.landmarkToCat, c.catToLandmark, c.next, Distinct(LandmarksOf(Kept(rows, trainIds))));
  }

  /** Class maps laid out along a list of distinct landmarks are inverse to each other. */
  lemma ClassesMatchInverse(lt: map<int, nat>, cl: map<nat, int>, next: nat, d: seq<int>)
    requires ClassesMatch(lt, cl, next, d)
    ensures forall l :: l in lt ==> lt[l] in cl && cl[lt[l]] == l
    ensures forall k :: k in cl ==> cl[k] in lt && lt[cl[k]] == k
  {
    forall l | l in lt
      ensures lt[l] in cl && cl[lt[l]] == l
    {
      var j :| 0 <= j < |d| && d[j] == l;
    }
  }


  /** Classes are numbered in first-seen order: class k is the k-th distinct landmark among
      the kept rows (a class with a smaller index has its landmark's first kept row earlier
      in the manifest), and its identifier list holds the identifiers of that landmark's kept
      rows in manifest order. */
  lemma {:induction false} FirstSeenOrder(rows: seq<Row>, trainIds: set<string>)
    ensures var c := FromManifest(rows, trainIds);
      var kept := Kept(rows, trainIds);
      var d := Distinct(LandmarksOf(kept));
      && c.next == |d|
      && (forall k :: 0 <= k < |d| ==>
            && k in c.catToLandmark && k in c.catToIds
            && c.catToLandmark[k] == d[k] && c.catToIds[k] == IdsWith(kept, d[k]))
      && (forall k, k' :: 0 <= k < k' < |d| ==>
            FirstIndex(LandmarksOf(kept), d[k]) < FirstIndex(LandmarksOf(kept), d[k']))
  {
    FromManifestRepresents(rows, trainIds);
    var d := Distinct(LandmarksOf(Kept(rows, trainIds)));
    forall k, k' | 0 <= k < k' < |d|
      ensures FirstIndex(LandmarksOf(Kept(rows, trainIds)), d[k]) < FirstIndex(LandmarksOf(Kept(rows, trainIds)), d[k'])
    {
      DistinctOrder(LandmarksOf(Kept(rows, trainIds)), k, k');
    }
  }

  /** `Distinct` is first-occurrence order: a value that first appears earlier in the input
      stands earlier in the output. */
  lemma {:induction false} DistinctOrder(s: seq<int>, i: int, j: int)
    requires 0 <= i < j < |Distinct(s)|
    ensures FirstIndex(s, Distinct(s)[i]) < FirstIndex(s, Distinct(s)[j])
  {
    var init := s[..|s| - 1];
    var d0 := Distinct(init);
    if j < |d0| {
      DistinctOrder(init, i, j);
      FirstIndexPrefix(s, d0[i]);
      FirstIndexPrefix(s, d0[j]);
    } else {
      FirstIndexPrefix(s, d0[i]);
      FirstIndexLast(s);
    }
  }

  /** Position of the first occurrence of l in s. */
  function FirstIndex(s: seq<int>, l: int): (r: nat)
    requires l in s
    ensures r < |s| && s[r] == l && l !in s[..r]
  {
    if s[0] == l then 0 else 1 + FirstIndex(s[1..], l)
  }

  lemma {:induction false} FirstIndexPrefix(s: seq<int>, l: int)
    requires |s| > 0 && l in s[..|s| - 1]
    ensures FirstIndex(s, l) == FirstIndex(s[..|s| - 1], l)
  {
    var p := s[..|s| - 1];
    if s[0] != l {
      assert p[0] == s[0];
      assert p[1..] == s[1..][..|s[1..]| - 1];
      var i :| 0 <= i < |p| && p[i] == l;
      assert p[1..][i - 1] == l;
      FirstIndexPrefix(s[1..], l);
    }
  }

  lemma {:induction false} FirstIndexLast(s: seq<int>)
    requires |s| > 0 && s[|s| - 1] !in s[..|s| - 1]
    ensures FirstIndex(s, s[|s| - 1]) == |s| - 1
  {
    if |s| > 1 {
      assert s[..|s| - 1][0] == s[0];
      var t := s[1..];
      assert s[..|s| - 1] == [s[0]] + t[..|t| - 1];
      FirstIndexLast(t);
    }
  }

  /** Every catalogued identifier maps to the class of its landmark, its seen count starts
      at 0, and its (identifier, landmark) pair is a kept manifest row. */
  lemma {:induction false} IdsMapToTheirLandmarkClass(rows: seq<Row>, trainIds: set<string>)
    ensures var c := FromManifest(rows, trainIds);
      && c.idToCat.Keys == c.idToLandmark.Keys == c.timesSeen.Keys
      && forall id :: id in c.idToCat ==>
           && id in c.timesSeen && id in c.idToLandmark && c.idToLandmark[id] in c.landmarkToCat
           && c.timesSeen[id] == 0
           && Entry(id, c.idToLandmark[id]) in Kept(rows, trainIds)
           && c.idToCat[id] == c.landmarkToCat[c.idToLandmark[id]]
  {
    FromManifestRepresents(rows, trainIds);
  }

  /** The landmark of the last entry naming id, if any. */
  function LastLandmark(es: seq<Entry>, id: string): Option<int>
  {
    if es == [] then None
    else if es[|es| - 1].id == id then Some(es[|es| - 1].landmark)
    else LastLandmark(es[..|es| - 1], id)
  }

  /** A later row naming the same image overwrites `id_to_landmark[idx]` (train.py:189), so
      an id maps to the landmark of the last kept row naming it. */
  lemma {:induction false} LastRowWins(rows: seq<Row>, trainIds: set<string>)
    ensures var c := FromManifest(rows, trainIds);
      forall id :: && (id in c.idToLandmark <==> LastLandmark(Kept(rows, trainIds), id).Some?)
                   && (id in c.idToLandmark ==> c.idToLandmark[id] == LastLandmark(Kept(rows, trainIds), id).value)
  {
    if rows != [] {
      var init := rows[..|rows| - 1];
      LastRowWins(init, trainIds);
      var r := rows[|rows| - 1];
      var x := Unquote(r.quotedId);
      var k0 := Kept(init, trainIds);
      var c0 := FromManifest(init, trainIds);
      if x in trainIds {
        var ks := k0 + [Entry(x, r.landmark)];
        assert Kept(rows, trainIds) == ks;
        assert ks[..|k0|] == k0;
        assert FromManifest(rows, trainIds).idToLandmark == c0.idToLandmark[x := r.landmark];
        forall id
          ensures LastLandmark(ks, id) == if id == x then Some(r.landmark) else LastLandmark(k0, id)
        {
        }
      } else {
        assert Kept(rows, trainIds) == k0 + [];
        assert k0 + [] == k0;
      }
    }
  }

  // ---------------------------------------------------------------------------
  // The distractor class
  // ---------------------------------------------------------------------------

  lemma AddDistractorIdsEffect(c: Catalog, k: nat, ids: seq<string>)
    ensures var c' := AddDistractorIds(c, k, ids);
      && c'.landmarkToCat == c.landmarkToCat && c'.catToLandmark == c.catToLandmark && c'.next == c.next
      && Get(c'.catToIds, k) == Get(c.catToIds, k) + ids
      && (forall id :: id in c'.idToCat <==> id in c.idToCat || id in ids)
      && (forall j :: j in c.catToIds && j != k ==> j in c'.catToIds && c'.catToIds[j] == c.catToIds[j])
      && (forall j :: j in c'.catToIds ==> j in c.catToIds || (j == k && ids != []))
      && (forall id :: id in ids ==> id in c'.idToCat && id in c'.idToLandmark && c'.idToCat[id] == k && c'.idToLandmark[id] == DistractorLandmark)
  {
    AddDistractorIdsKeepsClasses(c, k, ids);
    AddDistractorIdsLists(c, k, ids);
    AddDistractorIdsIds(c, k, ids);
  }

  /** Adding distractor identifiers leaves the class maps alone. */
  lemma {:induction false} AddDistractorIdsKeepsClasses(c: Catalog, k: nat, ids: seq<string>)
    ensures var c' := AddDistractorIds(c, k, ids);
      c'.landmarkToCat == c.landmarkToCat && c'.catToLandmark == c.catToLandmark && c'.next == c.next
  {
    if ids != [] {
      AddDistractorIdsKeepsClasses(c, k, ids[..|ids| - 1]);
    }
  }

  /** Adding distractor identifiers appends them to class k's list and to no other. */
  lemma {:induction false} AddDistractorIdsLists(c: Catalog, k: nat, ids: seq<string>)
    ensures var c' := AddDistractorIds(c, k, ids);
      && Get(c'.catToIds, k) == Get(c.catToIds, k) + ids
      && (forall j :: j in c.catToIds && j != k ==> j in c'.catToIds && c'.catToIds[j] == c.catToIds[j])
      && (forall j :: j in c'.catToIds ==> j in c.catToIds || (j == k && ids != []))
  {
    if ids != [] {
      var init, id := ids[..|ids| - 1], ids[|ids| - 1];
      AddDistractorIdsLists(c, k, init);
      var m0 := AddDistractorIds(c, k, init).catToIds;
      assert AddDistractorIds(c, k, ids).catToIds == m0[k := Get(m0, k) + [id]];
      assert ids == init + [id];
      assert Get(c.catToIds, k) + ids == (Get(c.catToIds, k) + init) + [id];
    }
  }

  /** Adding distractor identifiers files each of them under class k and the distractor
      landmark, and adds no other identifier. */
  lemma {:induction false} AddDistractorIdsIds(c: Catalog, k: nat, ids: seq<string>)
    ensures var c' := AddDistractorIds(c, k, ids);
      && (forall id :: id in c'.idToCat <==> id in c.idToCat || id in ids)
      && (forall id :: id in ids ==> id in c'.idToCat && id in c'.idToLandmark && c'.idToCat[id] == k && c'.idToLandmark[id] == DistractorLandmark)
  {
    if ids != [] {
      var init, id := ids[..|ids| - 1], ids[|ids| - 1];
      AddDistractorIdsIds(c, k, init);
      assert forall x :: x in ids <==> x in init || x == id;
    }
  }


  /** Adding distractor identifiers leaves every other identifier's class as it was. */
  lemma {:induction false} AddDistractorIdsKeepsOtherIds(c: Catalog, k: nat, ids: seq<string>, id: string)
    requires id !in ids
    ensures var c' := AddDistractorIds(c, k, ids);
      && (id in c'.idToCat <==> id in c.idToCat)
      && (id in c.idToCat ==> c'.idToCat[id] == c.idToCat[id])
  {
    if ids != [] {
      var init := ids[..|ids| - 1];
      assert ids == init + [ids[|ids| - 1]];
      AddDistractorIdsKeepsOtherIds(c, k, init, id);
    }
  }

  /** With distractors and no manifest landmark -1: landmark -1 gets index cat, the two maps
      stay mutual inverses over 0..cat, N_CLASSES is cat + 1, the distractor identifiers
      form class cat and no other class changes. */
  lemma {:induction false} DistractorClassAppended(rows: seq<Row>, trainIds: set<string>, ids: seq<string>)
    requires DistractorLandmark !in FromManifest(rows, trainIds).landmarkToCat
    ensures var c := FromManifest(rows, trainIds);
      var c' := WithDistractors(c, ids);
      && DistractorLandmark in c'.landmarkToCat && c.next in c'.catToLandmark
      && c'.landmarkToCat[DistractorLandmark] == c.next
      && c'.catToLandmark[c.next] == DistractorLandmark
      && NClasses(c') == c.next + 1
      && (forall k: nat :: k in c'.catToLandmark <==> k <= c.next)
      && (forall l :: l in c'.landmarkToCat ==>
            c'.landmarkToCat[l] in c'.catToLandmark && c'.catToLandmark[c'.landmarkToCat[l]] == l)
      && (forall k :: k in c'.catToLandmark ==>
            c'.catToLandmark[k] in c'.landmarkToCat && c'.landmarkToCat[c'.catToLandmark[k]] == k)
      && Get(c'.catToIds, c.next) == ids
      && (forall k :: k in c.catToIds ==> k in c'.catToIds && c'.catToIds[k] == c.catToIds[k])
      && (forall id :: id in ids ==> id in c'.idToCat && c'.idToCat[id] == c.next)
  {
    var c := FromManifest(rows, trainIds);
    ClassesContiguous(rows, trainIds);
    CatMapsInverse(rows, trainIds);
    var k := c.next;
    ExtendInverse(c.landmarkToCat, c.catToLandmark, k, DistractorLandmark);
    var c1 := c.(landmarkToCat := c.landmarkToCat[DistractorLandmark := k],
                 catToLandmark := c.catToLandmark[k := DistractorLandmark]);
    AddDistractorIdsEffect(c1, k, ids);
    assert k !in c1.catToIds;
  }

  /** Giving a fresh landmark the next class index keeps the two class maps mutual inverses
      over a contiguous range. */
  lemma ExtendInverse(lt: map<int, nat>, cl: map<nat, int>, n: nat, l: int)
    requires forall k: nat :: k in cl <==> k < n
    requires forall x :: x in lt ==> lt[x] in cl && cl[lt[x]] == x
    requires forall k :: k in cl ==> cl[k] in lt && lt[cl[k]] == k
    requires l !in lt
    ensures var lt', cl' := lt[l := n], cl[n := l];
      && |lt'| == |lt| + 1
      && (forall k: nat :: k in cl' <==> k <= n)
      && (forall x :: x in lt' ==> lt'[x] in cl' && cl'[lt'[x]] == x)
      && (forall k :: k in cl' ==> cl'[k] in lt' && lt'[cl'[k]] == k)
  {
  }

  /** If the manifest itself uses landmark -1, the distractor class overwrites its key:
      N_CLASSES stays cat, so the distractor index cat equals N_CLASSES and lies outside the
      one-hot range. */
  lemma {:induction false} DistractorLandmarkCollision(rows: seq<Row>, trainIds: set<string>, ids: seq<string>)
    requires DistractorLandmark in FromManifest(rows, trainIds).landmarkToCat
    ensures var c' := WithDistractors(FromManifest(rows, trainIds), ids);
      DistractorLandmark in c'.landmarkToCat && NClasses(c') == c'.landmarkToCat[DistractorLandmark]
  {
    var c := FromManifest(rows, trainIds);
    ClassesContiguous(rows, trainIds);
    var c1 := c.(landmarkToCat := c.landmarkToCat[DistractorLandmark := c.next],
                 catToLandmark := c.catToLandmark[c.next := DistractorLandmark]);
    assert c1.landmarkToCat.Keys == c.landmarkToCat.Keys;
    AddDistractorIdsEffect(c1, c.next, ids);
  }
}
