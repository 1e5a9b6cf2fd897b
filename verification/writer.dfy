/** The prediction writer (train.py:774-826): the identifiers are cut into chunks of
    `batch_size`, every chunk is loaded, and loaded images are gathered in a fixed buffer
    that is classified (`predict_minibatch`) when full and once more at the end. A failed
    load writes its empty row at once; a loaded image's row is written when its buffer is
    classified. The loads and the network's answers are given as tables. */
module Writer {
  import opened Items

  /** The network's output for one image: the arg-max class, its score, and the logits. */
  datatype Prediction = Prediction(cat: nat, score: real, logit: seq<real>)

  /** A row of the output CSV: the identifier and, when non-empty, the landmark and score. */
  datatype CsvRow = CsvRow(id: string, landmark: Option<(int, real)>)

  /** The environment of one run: the images `process_item(..., predict=True)` makes of
      the identifiers it does not reject, the network's prediction for each image,
      `cat_to_landmark` and the score threshold. */
  datatype Env = Env(
    images: map<string, Tensor>,
    predictions: map<Tensor, Prediction>,
    catToLandmark: map<nat, int>,
    threshold: real)
  {
    /** The image of an identifier, or None when `process_item` rejects it. */
    function Load(id: string): Option<Tensor>
    {
      if id in images then Some(images[id]) else None
    }

    function Classify(t: Tensor): Prediction
      requires t in predictions
    {
      predictions[t]
    }
  }

  /** Images the network answers, each with a class that has a landmark. */
  predicate AllClassifiable(env: Env, imgs: seq<Tensor>)
  {
    forall j :: 0 <= j < |imgs| ==>
      imgs[j] in env.predictions && env.predictions[imgs[j]].cat in env.catToLandmark
  }

  /** Every image that loads is classified, and every class the network answers has a
      landmark. */
  ghost predicate EnvOk(env: Env)
  {
    && (forall id :: id in env.images ==> env.images[id] in env.predictions)
    && (forall t :: t in env.predictions ==> env.predictions[t].cat in env.catToLandmark)
  }

  // ---------------------------------------------------------------------------
  // Chunking (train.py:801-803)
  // ---------------------------------------------------------------------------

  /** `all_ids[ii:ii+b] for ii in range(0, len(all_ids), b)`. */
  function Chunks(ids: seq<string>, b: nat): seq<seq<string>>
    requires b > 0
    decreases |ids|
  {
    if ids == [] then []
    else if |ids| <= b then [ids]
    else [ids[..b]] + Chunks(ids[b..], b)
  }

  function Concat(cs: seq<seq<string>>): seq<string>
  {
    if cs == [] then [] else cs[0] + Concat(cs[1..])
  }

  /** The chunks partition the identifiers: concatenated in order they give them back,
      every chunk holds 1..b identifiers and only the last may hold fewer than b, and
      there are ceil(n / b) of them: b * (count - 1) < n <= b * count. */
  lemma {:induction false} ChunksPartition(ids: seq<string>, b: nat)
    requires b > 0
    ensures var cs := Chunks(ids, b);
      && Concat(cs) == ids
      && (forall c :: 0 <= c < |cs| ==> 0 < |cs[c]| <= b)
      && (forall c :: 0 <= c < |cs| - 1 ==> |cs[c]| == b)
      && (ids == [] <==> cs == [])
      && (ids != [] ==> b * (|cs| - 1) < |ids| <= b * |cs|)
    decreases |ids|
  {
    if |ids| > b {
      var rest := Chunks(ids[b..], b);
      ChunksPartition(ids[b..], b);
      var cs := Chunks(ids, b);
      assert cs == [ids[..b]] + rest;
      assert cs[1..] == rest;
      assert ids == ids[..b] + ids[b..];
      assert b * |cs| == b * |rest| + b;
      forall c | 0 <= c < |cs|
        ensures 0 < |cs[c]| <= b && (c < |cs| - 1 ==> |cs[c]| == b)
      {
        if c > 0 {
          assert cs[c] == rest[c - 1];
        }
      }
    } else if ids != [] {
      assert Chunks(ids, b) == [ids];
      assert Concat([ids]) == ids + Concat([]);
    }
  }

  lemma {:induction false} ConcatSnoc(cs: seq<seq<string>>, c: nat)
    requires c < |cs|
    ensures Concat(cs[..c + 1]) == Concat(cs[..c]) + cs[c]
  {
    if c == 0 {
      assert cs[..1] == [cs[0]];
      assert Concat(cs[..1]) == cs[0] + Concat([]);
    } else {
      ConcatSnoc(cs[1..], c - 1);
      assert cs[..c + 1][1..] == cs[1..][..c];
      assert cs[..c][1..] == cs[1..][..c - 1];
    }
  }

  // ---------------------------------------------------------------------------
  // Rows
  // ---------------------------------------------------------------------------

  /** The row written for a classified image (train.py:790-799): non-empty exactly when the
      score reaches the threshold and the landmark is not the distractor landmark -1. */
  function RowFor(env: Env, id: string, p: Prediction): (r: CsvRow)
    requires p.cat in env.catToLandmark
    ensures r.id == id
    ensures r.landmark.Some? <==> p.score >= env.threshold && env.catToLandmark[p.cat] != -1
    ensures r.landmark.Some? ==> r.landmark.value == (env.catToLandmark[p.cat], p.score)
  {
    var landmark := env.catToLandmark[p.cat];
    if p.score >= env.threshold && landmark != -1 then CsvRow(id, Some((landmark, p.score)))
    else CsvRow(id, None)
  }

  /** The row an identifier ends up with: empty when its image is rejected, otherwise the
      row its prediction calls for. */
  ghost function ExpectedRow(env: Env, id: string): CsvRow
    requires EnvOk(env)
  {
    match env.Load(id)
    case None => CsvRow(id, None)
    case Some(img) => RowFor(env, id, env.Classify(img))
  }

  ghost function ExpectedRows(env: Env, ids: seq<string>): seq<CsvRow>
    requires EnvOk(env)
  {
    if ids == [] then [] else ExpectedRows(env, ids[..|ids| - 1]) + [ExpectedRow(env, ids[|ids| - 1])]
  }

  /** A non-empty row is written for an identifier exactly when its image loads, its score
      reaches the threshold and its landmark is not -1. */
  lemma ExpectedRowRule(env: Env, id: string)
    requires EnvOk(env)
    ensures ExpectedRow(env, id).id == id
    ensures ExpectedRow(env, id).landmark.Some? <==>
              && env.Load(id).Some?
              && env.Classify(env.Load(id).value).score >= env.threshold
              && env.catToLandmark[env.Classify(env.Load(id).value).cat] != -1
  {
  }

  /** The rows `predict_minibatch` writes for the buffered images and identifiers. */
  function MinibatchRows(env: Env, imgs: seq<Tensor>, ids: seq<string>): seq<CsvRow>
    requires |imgs| == |ids|
    requires AllClassifiable(env, imgs)
  {
    if ids == [] then []
    else
      var n := |ids| - 1;
      MinibatchRows(env, imgs[..n], ids[..n]) + [RowFor(env, ids[n], env.Classify(imgs[n]))]
  }

  // ---------------------------------------------------------------------------
  // Logits by landmark (train.py:788-794)
  // ---------------------------------------------------------------------------

  type Logits = map<int, map<string, seq<real>>>

  function Inner(results: Logits, landmark: int): map<string, seq<real>>
  {
    if landmark in results then results[landmark] else map[]
  }

  /** `results[landmark][idx] = logit` for every buffered image, as written: the key is
      `idx`, the identifier the outer loop last visited, for every row of the buffer. */
  function MinibatchLogitsAsWritten(env: Env, results: Logits, imgs: seq<Tensor>, idx: string): Logits
    requires AllClassifiable(env, imgs)
  {
    if imgs == [] then results
    else
      var r := MinibatchLogitsAsWritten(env, results, imgs[..|imgs| - 1], idx);
      var p := env.Classify(imgs[|imgs| - 1]);
      var landmark := env.catToLandmark[p.cat];
      r[landmark := Inner(r, landmark)[idx := p.logit]]
  }

  /** Corrected: each row's logits are stored under that row's own identifier `_idx`. */
  function MinibatchLogits(env: Env, results: Logits, imgs: seq<Tensor>, ids: seq<string>): Logits
    requires |imgs| == |ids|
    requires AllClassifiable(env, imgs)
  {
    if imgs == [] then results
    else
      var n := |imgs| - 1;
      var r := MinibatchLogits(env, results, imgs[..n], ids[..n]);
      var p := env.Classify(imgs[n]);
      var landmark := env.catToLandmark[p.cat];
      r[landmark := Inner(r, landmark)[ids[n] := p.logit]]
  }

  /** As written, a minibatch adds no key other than `idx`: when two loaded identifiers of
      one minibatch share a landmark, the first one's logits are lost and the second's are
      filed under `idx`. */
  lemma {:induction false} AsWrittenKeysOnlyIdx(env: Env, results: Logits, imgs: seq<Tensor>, idx: string)
    requires AllClassifiable(env, imgs)
    ensures var r := MinibatchLogitsAsWritten(env, results, imgs, idx);
      forall landmark, id :: id != idx && id in Inner(r, landmark) ==>
        id in Inner(results, landmark) && Inner(r, landmark)[id] == Inner(results, landmark)[id]
  {
    if imgs != [] {
      AsWrittenKeysOnlyIdx(env, results, imgs[..|imgs| - 1], idx);
    }
  }

  /** The smallest input that shows it: identifiers "a" and "b" loaded in one minibatch,
      both classified as the same landmark, flushed while the outer loop is at "b". */
  lemma AsWrittenLosesLogits(env: Env, ta: Tensor, tb: Tensor)
    requires ta in env.predictions && env.predictions[ta].cat in env.catToLandmark
    requires tb in env.predictions && env.predictions[tb].cat in env.catToLandmark
    requires env.catToLandmark[env.Classify(ta).cat] == env.catToLandmark[env.Classify(tb).cat]
    ensures var landmark := env.catToLandmark[env.Classify(ta).cat];
      && "a" !in Inner(MinibatchLogitsAsWritten(env, map[], [ta, tb], "b"), landmark)
      && Inner(MinibatchLogits(env, map[], [ta, tb], ["a", "b"]), landmark) ==
           map["a" := env.Classify(ta).logit, "b" := env.Classify(tb).logit]
  {
    var landmark := env.catToLandmark[env.Classify(ta).cat];
    assert [ta, tb][..1] == [ta];
    assert ["a", "b"][..1] == ["a"];
    assert [ta][..0] == [];
    assert ["a"][..0] == [];
    AsWrittenKeysOnlyIdx(env, map[], [ta, tb], "b");
    assert MinibatchLogits(env, map[], [], []) == map[];
    var r1 := MinibatchLogits(env, map[], [ta], ["a"]);
    assert r1 == map[landmark := map["a" := env.Classify(ta).logit]];
    assert MinibatchLogits(env, map[], [ta, tb], ["a", "b"]) ==
             r1[landmark := Inner(r1, landmark)["b" := env.Classify(tb).logit]];
  }

  /** The logits of the loaded identifiers among `ids`, each filed under its landmark and
      its own identifier. */
  ghost function LogitsOf(env: Env, ids: seq<string>): Logits
    requires EnvOk(env)
  {
    if ids == [] then map[]
    else
      var r := LogitsOf(env, ids[..|ids| - 1]);
      var id := ids[|ids| - 1];
      match env.Load(id)
      case None => r
      case Some(img) =>
        var p := env.Classify(img);
        var landmark := env.catToLandmark[p.cat];
        r[landmark := Inner(r, landmark)[id := p.logit]]
  }

  /** The landmark a loaded identifier is classified as. */
  ghost function LandmarkOf(env: Env, id: string): int
    requires EnvOk(env) && env.Load(id).Some?
  {
    env.catToLandmark[env.Classify(env.Load(id).value).cat]
  }

  /** The logits table holds an entry for (landmark, id) exactly when id is a loaded
      identifier classified as that landmark, and the entry is that image's logits. */
  lemma {:induction false} LogitsOfEntries(env: Env, ids: seq<string>, landmark: int, id: string)
    requires EnvOk(env)
    ensures id in Inner(LogitsOf(env, ids), landmark) <==>
              id in ids && env.Load(id).Some? && LandmarkOf(env, id) == landmark
    ensures id in Inner(LogitsOf(env, ids), landmark) ==>
              Inner(LogitsOf(env, ids), landmark)[id] == env.Classify(env.Load(id).value).logit
  {
    if ids != [] {
      LogitsOfEntries(env, ids[..|ids| - 1], landmark, id);
      assert ids == ids[..|ids| - 1] + [ids[|ids| - 1]];
    }
  }

  /** The corrected minibatch update is the identifier-by-identifier update. */
  lemma {:induction false} MinibatchLogitsExtends(env: Env, flushed: seq<string>, imgs: seq<Tensor>, ids: seq<string>)
    requires EnvOk(env) && |imgs| == |ids|
    requires forall j :: 0 <= j < |ids| ==> env.Load(ids[j]) == Some(imgs[j])
    requires AllClassifiable(env, imgs)
    ensures MinibatchLogits(env, LogitsOf(env, flushed), imgs, ids) == LogitsOf(env, flushed + ids)
  {
    if ids != [] {
      var n := |ids| - 1;
      MinibatchLogitsExtends(env, flushed, imgs[..n], ids[..n]);
      assert (flushed + ids)[..|flushed + ids| - 1] == flushed + ids[..n];
      assert (flushed + ids)[|flushed + ids| - 1] == ids[n];
      var r := LogitsOf(env, flushed + ids[..n]);
      var p := env.Classify(imgs[n]);
      var landmark := env.catToLandmark[p.cat];
      assert env.Load(ids[n]) == Some(imgs[n]);
      assert LogitsOf(env, flushed + ids) == r[landmark := Inner(r, landmark)[ids[n] := p.logit]];
    } else {
      assert flushed + ids == flushed;
    }
  }

  // ---------------------------------------------------------------------------
  // The writer state
  // ---------------------------------------------------------------------------

  /** The identifiers among ids whose image loads. */
  ghost function Loaded(env: Env, ids: seq<string>): seq<string>
  {
    if ids == [] then []
    else Loaded(env, ids[..|ids| - 1]) + (if env.Load(ids[|ids| - 1]).Some? then [ids[|ids| - 1]] else [])
  }

  lemma LoadedSnoc(env: Env, ids: seq<string>, id: string)
    ensures Loaded(env, ids + [id]) == Loaded(env, ids) + (if env.Load(id).Some? then [id] else [])
  {
    assert (ids + [id])[..|ids|] == ids;
  }

  lemma {:induction false} LoadedMembers(env: Env, ids: seq<string>, id: string)
    ensures id in Loaded(env, ids) <==> id in ids && env.Load(id).Some?
  {
    if ids != [] {
      LoadedMembers(env, ids[..|ids| - 1], id);
      assert ids == ids[..|ids| - 1] + [ids[|ids| - 1]];
    }
  }

  /** The identifiers of rows, in order. */
  function RowIds(rows: seq<CsvRow>): (ids: seq<string>)
    ensures |ids| == |rows|
  {
    if rows == [] then [] else RowIds(rows[..|rows| - 1]) + [rows[|rows| - 1].id]
  }

  lemma {:induction false} RowIdsAppend(a: seq<CsvRow>, b: seq<CsvRow>)
    ensures RowIds(a + b) == RowIds(a) + RowIds(b)
  {
    if b == [] {
      assert a + b == a;
    } else {
      var n := |b| - 1;
      RowIdsAppend(a, b[..n]);
      assert (a + b)[..|a + b| - 1] == a + b[..n];
    }
  }

  lemma {:induction false} ExpectedRowsIds(env: Env, ids: seq<string>)
    requires EnvOk(env)
    ensures RowIds(ExpectedRows(env, ids)) == ids
    ensures forall r :: r in ExpectedRows(env, ids) ==> r == ExpectedRow(env, r.id)
  {
    if ids != [] {
      var n := |ids| - 1;
      ExpectedRowsIds(env, ids[..n]);
      var rs := ExpectedRows(env, ids);
      assert rs[..|rs| - 1] == ExpectedRows(env, ids[..n]);
      assert ids == ids[..n] + [ids[n]];
    }
  }

  /** The buffered images are all classified, into classes that have landmarks. */
  lemma BufferClassifiable(env: Env, buffer: seq<Tensor>, batchIdx: seq<string>)
    requires EnvOk(env) && BufferHolds(env, buffer, batchIdx)
    ensures AllClassifiable(env, buffer)
  {
    forall j | 0 <= j < |buffer|
      ensures buffer[j] in env.predictions && env.predictions[buffer[j]].cat in env.catToLandmark
    {
      assert env.Load(batchIdx[j]) == Some(buffer[j]);
    }
  }

  lemma {:induction false} MinibatchRowsExpected(env: Env, buffer: seq<Tensor>, batchIdx: seq<string>)
    requires EnvOk(env) && BufferHolds(env, buffer, batchIdx)
    requires AllClassifiable(env, buffer)
    ensures MinibatchRows(env, buffer, batchIdx) == ExpectedRows(env, batchIdx)
  {
    if batchIdx != [] {
      var n := |batchIdx| - 1;
      MinibatchRowsExpected(env, buffer[..n], batchIdx[..n]);
    }
  }

  /** Every row is the row its identifier calls for. */
  ghost predicate RowsAsExpected(env: Env, rows: seq<CsvRow>)
    requires EnvOk(env)
  {
    forall r :: r in rows ==> r == ExpectedRow(env, r.id)
  }

  // The writer's bookkeeping, on values.

  /** The buffer holds the loaded images of the buffered identifiers. */
  ghost predicate BufferHolds(env: Env, buffer: seq<Tensor>, batchIdx: seq<string>)
  {
    && |buffer| == |batchIdx|
    && (forall j :: 0 <= j < |batchIdx| ==> env.Load(batchIdx[j]) == Some(buffer[j]))
  }

  /** Every row written is the row its identifier calls for, and the identifiers of the
      rows written plus those buffered are the identifiers handled. */
  ghost predicate RowsAccounted(env: Env, rows: seq<CsvRow>, batchIdx: seq<string>, handled: seq<string>)
    requires EnvOk(env)
  {
    && RowsAsExpected(env, rows)
    && multiset(RowIds(rows)) + multiset(batchIdx) == multiset(handled)
  }

  /** The loaded identifiers handled are those classified plus those buffered, and the
      logits table is that of the classified ones. */
  ghost predicate LogitsAccounted(env: Env, results: Logits, recordLogits: bool, flushed: seq<string>,
                                  batchIdx: seq<string>, handled: seq<string>)
    requires EnvOk(env)
  {
    && results == (if recordLogits then LogitsOf(env, flushed) else map[])
    && multiset(flushed) + multiset(batchIdx) == multiset(Loaded(env, handled))
  }

  lemma RejectedRowsStep(env: Env, rows: seq<CsvRow>, batchIdx: seq<string>, handled: seq<string>, idx: string)
    requires EnvOk(env) && env.Load(idx).None?
    requires RowsAccounted(env, rows, batchIdx, handled)
    ensures RowsAccounted(env, rows + [CsvRow(idx, None)], batchIdx, handled + [idx])
  {
    RowIdsAppend(rows, [CsvRow(idx, None)]);
    assert RowIds([CsvRow(idx, None)]) == [idx];
  }

  lemma RejectedLogitsStep(env: Env, results: Logits, recordLogits: bool, flushed: seq<string>,
                           batchIdx: seq<string>, handled: seq<string>, idx: string)
    requires EnvOk(env) && env.Load(idx).None?
    requires LogitsAccounted(env, results, recordLogits, flushed, batchIdx, handled)
    ensures LogitsAccounted(env, results, recordLogits, flushed, batchIdx, handled + [idx])
  {
    LoadedSnoc(env, handled, idx);
  }

  lemma BufferedRowsStep(env: Env, rows: seq<CsvRow>, batchIdx: seq<string>, handled: seq<string>, idx: string)
    requires EnvOk(env)
    requires RowsAccounted(env, rows, batchIdx, handled)
    ensures RowsAccounted(env, rows, batchIdx + [idx], handled + [idx])
  {
  }

  lemma BufferedLogitsStep(env: Env, results: Logits, recordLogits: bool, flushed: seq<string>,
                           batchIdx: seq<string>, handled: seq<string>, idx: string)
    requires EnvOk(env) && env.Load(idx).Some?
    requires LogitsAccounted(env, results, recordLogits, flushed, batchIdx, handled)
    ensures LogitsAccounted(env, results, recordLogits, flushed, batchIdx + [idx], handled + [idx])
  {
    LoadedSnoc(env, handled, idx);
  }

  lemma FlushRowsStep(env: Env, buffer: seq<Tensor>, batchIdx: seq<string>, rows: seq<CsvRow>, handled: seq<string>)
    requires EnvOk(env)
    requires BufferHolds(env, buffer, batchIdx) && AllClassifiable(env, buffer)
    requires RowsAccounted(env, rows, batchIdx, handled)
    ensures MinibatchRows(env, buffer, batchIdx) == ExpectedRows(env, batchIdx)
    ensures RowsAccounted(env, rows + ExpectedRows(env, batchIdx), [], handled)
  {
    MinibatchRowsExpected(env, buffer, batchIdx);
    ExpectedRowsIds(env, batchIdx);
    RowIdsAppend(rows, ExpectedRows(env, batchIdx));
  }

  lemma FlushLogitsStep(env: Env, buffer: seq<Tensor>, batchIdx: seq<string>, results: Logits,
                        recordLogits: bool, handled: seq<string>, flushed: seq<string>)
    requires EnvOk(env)
    requires BufferHolds(env, buffer, batchIdx) && AllClassifiable(env, buffer)
    requires LogitsAccounted(env, results, recordLogits, flushed, batchIdx, handled)
    ensures LogitsAccounted(env, if recordLogits then MinibatchLogits(env, results, buffer, batchIdx) else results,
                            recordLogits, flushed + batchIdx, [], handled)
  {
    if recordLogits {
      MinibatchLogitsExtends(env, flushed, buffer, batchIdx);
    }
  }

  /** The minibatch buffer `imgs` of `batch_size` images, its fill level `batch_id` and
      the identifiers of the buffered images `batch_idx`. */
  class ImageBuffer {
    const env: Env
    const imgs: array<Tensor>
    var batchId: nat
    var batchIdx: seq<string>

    /** The buffer holds the loaded images of the buffered identifiers. */
    ghost predicate Valid()
      reads this, imgs
    {
      && batchId == |batchIdx| <= imgs.Length
      && (forall j :: 0 <= j < batchId ==> env.Load(batchIdx[j]) == Some(imgs[j]))
    }

    constructor (env: Env, size: nat)
      ensures Valid() && fresh(imgs)
      ensures this.env == env && imgs.Length == size && batchIdx == []
    {
      this.env := env;
      imgs := new Tensor[size](_ => Zeros);
      batchId := 0;
      batchIdx := [];
    }

    /** `imgs[batch_id] = img; batch_idx.append(idx); batch_id += 1`. */
    method Push(idx: string, img: Tensor)
      requires Valid() && env.Load(idx) == Some(img) && batchId < imgs.Length
      modifies this, imgs
      ensures Valid() && batchIdx == old(batchIdx) + [idx]
    {
      imgs[batchId] := img;
      batchIdx := batchIdx + [idx];
      batchId := batchId + 1;
    }

    /** `batch_id = 0; batch_idx = []`. */
    method Clear()
      modifies this
      ensures Valid() && batchIdx == []
    {
      batchId := 0;
      batchIdx := [];
    }
  }

  /** The state the loop and `predict_minibatch` share: the buffer, the rows written and
      the logits table. The ghost fields record every identifier handled and every
      identifier classified. */
  class PredictionWriter {
    const env: Env
    const batchSize: nat
    /** Training set run: `results` is a table rather than None. */
    const recordLogits: bool
    const buf: ImageBuffer
    var rows: seq<CsvRow>
    var results: Logits
    ghost var handled: seq<string>
    ghost var flushed: seq<string>

    /** Between identifiers the buffer is never full. */
    ghost predicate Valid()
      reads this, buf, buf.imgs
    {
      Consistent() && |buf.batchIdx| < batchSize
    }

    ghost predicate Consistent()
      reads this, buf, buf.imgs
    {
      && buf.Valid()
      && buf.env == env
      && buf.imgs.Length == batchSize
      && EnvOk(env)
      && RowsAccounted(env, rows, buf.batchIdx, handled)
      && LogitsAccounted(env, results, recordLogits, flushed, buf.batchIdx, handled)
    }

    constructor (env: Env, batchSize: nat, recordLogits: bool)
      requires EnvOk(env) && batchSize > 0
      ensures Valid() && fresh(buf) && fresh(buf.imgs)
      ensures this.env == env && this.batchSize == batchSize && this.recordLogits == recordLogits
      ensures handled == [] && rows == []
    {
      this.env := env;
      this.batchSize := batchSize;
      this.recordLogits := recordLogits;
      buf := new ImageBuffer(env, batchSize);
      rows := [];
      results := map[];
      handled := [];
      flushed := [];
    }

    /** `predict_minibatch` (train.py:787-799): one row per buffered image, the row its
        prediction calls for, and with a logits table each buffered image's logits under
        its landmark and identifier. */
    method Flush()
      requires Consistent() && batchSize > 0
      modifies this, buf
      ensures Valid()
      ensures rows == old(rows) + ExpectedRows(env, old(buf.batchIdx))
      ensures buf.batchIdx == [] && handled == old(handled)
    {
      var images := buf.imgs[..buf.batchId];
      var ids := buf.batchIdx;
      assert BufferHolds(env, images, ids);
      BufferClassifiable(env, images, ids);
      FlushRowsStep(env, images, ids, rows, handled);
      FlushLogitsStep(env, images, ids, results, recordLogits, handled, flushed);
      if recordLogits {
        results := MinibatchLogits(env, results, images, ids);
      }
      rows := rows + MinibatchRows(env, images, ids);
      flushed := flushed + ids;
      buf.Clear();
    }

    /** One identifier of a chunk (train.py:808-822): a loaded image joins the buffer,
        which is classified when full; a rejected one gets its empty row at once. */
    method Accept(idx: string, img: Option<Tensor>)
      requires Valid() && img == env.Load(idx)
      modifies this, buf, buf.imgs
      ensures Valid()
      ensures handled == old(handled) + [idx]
      ensures img.None? ==> rows == old(rows) + [CsvRow(idx, None)] && buf.batchIdx == old(buf.batchIdx)
      ensures img.Some? && |old(buf.batchIdx)| + 1 < batchSize ==>
                rows == old(rows) && buf.batchIdx == old(buf.batchIdx) + [idx]
      ensures img.Some? && |old(buf.batchIdx)| + 1 == batchSize ==>
                rows == old(rows) + ExpectedRows(env, old(buf.batchIdx) + [idx]) && buf.batchIdx == []
    {
      if img.Some? {
        BufferedRowsStep(env, rows, buf.batchIdx, handled, idx);
        BufferedLogitsStep(env, results, recordLogits, flushed, buf.batchIdx, handled, idx);
        buf.Push(idx, img.value);
        handled := handled + [idx];
        if |buf.batchIdx| == batchSize {
          Flush();
        }
      } else {
        RejectedRowsStep(env, rows, buf.batchIdx, handled, idx);
        RejectedLogitsStep(env, results, recordLogits, flushed, buf.batchIdx, handled, idx);
        rows := rows + [CsvRow(idx, None)];
        handled := handled + [idx];
      }
    }

    /** The end of the loop (train.py:824-826): a partly filled buffer is classified;
        then every identifier handled has its row and the logits table is complete. */
    method Finish() returns (rs: seq<CsvRow>, table: Logits)
      requires Valid()
      modifies this, buf
      ensures Complete(env, old(handled), rs, table, recordLogits)
    {
      if buf.batchId != 0 {
        Flush();
      }
      FinalAccounts(env, rows, results, recordLogits, handled, flushed);
      rs, table := rows, results;
    }

    /** One chunk (train.py:802-822): `pool.map` loads every identifier of the chunk, and
        the results are taken in order. */
    method AcceptChunk(idxs: seq<string>)
      requires Valid()
      modifies this, buf, buf.imgs
      ensures Valid()
      ensures handled == old(handled) + idxs
    {
      var t := 0;
      while t < |idxs|
        invariant 0 <= t <= |idxs|
        invariant Valid()
        invariant handled == old(handled) + idxs[..t]
      {
        assert idxs[..t + 1] == idxs[..t] + [idxs[t]];
        Accept(idxs[t], env.Load(idxs[t]));
        t := t + 1;
      }
      assert idxs[..t] == idxs;
    }
  }

  /** The whole prediction loop (train.py:779-826) over the identifiers `allIds`: exactly
      one row per identifier, the row its load and prediction call for, in an order that
      may differ from the input; with a logits table, each loaded identifier's logits are
      filed under its landmark and identifier, and nothing else is. */
  method WritePredictions(env: Env, allIds: seq<string>, batchSize: nat, recordLogits: bool)
    returns (rows: seq<CsvRow>, results: Logits)
    requires EnvOk(env) && batchSize > 0
    ensures multiset(RowIds(rows)) == multiset(allIds)
    ensures |rows| == |allIds|
    ensures forall r :: r in rows ==> r == ExpectedRow(env, r.id)
    ensures !recordLogits ==> results == map[]
    ensures recordLogits ==> LogitsFiled(env, allIds, results)
  {
    var w := new PredictionWriter(env, batchSize, recordLogits);
    var chunks := Chunks(allIds, batchSize);
    ChunksPartition(allIds, batchSize);
    var c := 0;
    while c < |chunks|
      invariant 0 <= c <= |chunks|
      invariant w.Valid() && w.env == env && w.recordLogits == recordLogits
      invariant w.handled == Concat(chunks[..c])
      modifies w, w.buf, w.buf.imgs
    {
      ConcatSnoc(chunks, c);
      w.AcceptChunk(chunks[c]);
      c := c + 1;
    }
    assert chunks[..c] == chunks;
    rows, results := w.Finish();
    CompleteRowCount(env, allIds, rows, results, recordLogits);
  }

  lemma CompleteRowCount(env: Env, ids: seq<string>, rows: seq<CsvRow>, results: Logits, recordLogits: bool)
    requires EnvOk(env) && Complete(env, ids, rows, results, recordLogits)
    ensures |rows| == |ids|
  {
    assert |RowIds(rows)| == |multiset(RowIds(rows))| == |multiset(ids)| == |ids|;
  }

  /** The outcome the prediction loop promises for the identifiers ids: one row per
      identifier, each the row its identifier calls for; with a logits table, exactly the
      loaded identifiers filed under their landmarks with their logits. */
  ghost predicate Complete(env: Env, ids: seq<string>, rows: seq<CsvRow>, results: Logits, recordLogits: bool)
    requires EnvOk(env)
  {
    && multiset(RowIds(rows)) == multiset(ids)
    && RowsAsExpected(env, rows)
    && (!recordLogits ==> results == map[])
    && (recordLogits ==> LogitsFiled(env, ids, results))
  }

  /** The logits table files exactly the loaded identifiers among ids, each under the
      landmark it is classified as, with its logits. */
  ghost predicate LogitsFiled(env: Env, ids: seq<string>, results: Logits)
    requires EnvOk(env)
  {
    forall landmark, id ::
      && (id in Inner(results, landmark) <==>
            id in ids && env.Load(id).Some? && LandmarkOf(env, id) == landmark)
      && (id in Inner(results, landmark) ==>
            Inner(results, landmark)[id] == env.Classify(env.Load(id).value).logit)
  }

  /** Once every identifier is handled and the buffer is empty, the rows are those of the
      identifiers and the logits table is that of the loaded ones. */
  lemma FinalAccounts(env: Env, rows: seq<CsvRow>, results: Logits, recordLogits: bool,
                      allIds: seq<string>, flushed: seq<string>)
    requires EnvOk(env)
    requires RowsAccounted(env, rows, [], allIds)
    requires LogitsAccounted(env, results, recordLogits, flushed, [], allIds)
    ensures Complete(env, allIds, rows, results, recordLogits)
  {
    assert multiset(flushed) == multiset(Loaded(env, allIds));
    if recordLogits {
      FinalLogits(env, results, allIds, flushed);
    }
  }

  /** The final logits table files every loaded identifier once the buffer is empty. */
  lemma FinalLogits(env: Env, results: Logits, allIds: seq<string>, flushed: seq<string>)
    requires EnvOk(env)
    requires results == LogitsOf(env, flushed)
    requires multiset(flushed) == multiset(Loaded(env, allIds))
    ensures LogitsFiled(env, allIds, results)
  {
    forall landmark, id
      ensures (id in Inner(results, landmark) <==>
                 id in allIds && env.Load(id).Some? && LandmarkOf(env, id) == landmark)
              && (id in Inner(results, landmark) ==>
                 Inner(results, landmark)[id] == env.Classify(env.Load(id).value).logit)
    {
      FinalLogitsEntry(env, results, allIds, flushed, landmark, id);
    }
  }

  /** One entry of the final logits table: the flushed identifiers are, up to order, the
      loaded ones among all identifiers. */
  lemma FinalLogitsEntry(env: Env, results: Logits, allIds: seq<string>, flushed: seq<string>,
                         landmark: int, id: string)
    requires EnvOk(env)
    requires results == LogitsOf(env, flushed)
    requires multiset(flushed) == multiset(Loaded(env, allIds))
    ensures id in Inner(results, landmark) <==>
              id in allIds && env.Load(id).Some? && LandmarkOf(env, id) == landmark
    ensures id in Inner(results, landmark) ==>
              Inner(results, landmark)[id] == env.Classify(env.Load(id).value).logit
  {
    LogitsOfEntries(env, flushed, landmark, id);
    LoadedMembers(env, allIds, id);
    assert id in flushed <==> id in multiset(flushed);
    assert id in Loaded(env, allIds) <==> id in multiset(Loaded(env, allIds));
  }
}
