# Landmark recognition training script: the bookkeeping core, in Dafny

`train.py` trains a landmark classifier and writes predictions. Most of the script is glue
around a neural-network library. This project models four pieces of bookkeeping inside it.
Images are opaque values, and random choices are inputs.

- **The label catalog** (`catalog.dfy`, `trainset.dfy`, train.py:165-234).
  - Manifest rows `(quoted id, landmark)` become dense class indices, in first-seen order.
    Only identifiers that have an image file are kept.
  - The inverse maps `landmark_to_cat` / `cat_to_landmark` are built alongside.
  - An optional distractor class gets landmark -1.
  - The sole member of every singleton class is duplicated into the training list.
  - `TRAIN_CATS` is the class of every training entry.
  - The loops are methods, each proved equal to a recursive function. That function is
    proved equal to a reference definition: the kept rows and their distinct landmarks.
- **Processing one item** (`processing.dfy`, train.py:239-271, 344-410).
  - The two decoders are represented by their outcomes: failure, or an array of some shape.
  - `process_item` is a decision tree over the shape checks, the augmentation gate and the
    label.
  - The classifier-to-normaliser table is a constant map.
- **The batch generator `gen`** (`assembler.dfy`, train.py:412-521). It is a
  single-threaded state machine with four methods:
  - starting a pass;
  - dispatching one job (uniform or class-aware sampling, and the seen-count gate for
    augmentation);
  - one worker call;
  - collecting one result into the fixed `X`/`y` buffers, yielding when they are full.
- **The prediction writer** (`writer.dfy`, train.py:774-826).
  - It cuts the identifiers into chunks and fills the fixed `imgs` buffer.
  - It classifies the buffer when it is full and once more at the end.
  - It writes one CSV row per identifier, plus a per-landmark logits table.
  - The images `process_item` makes and the network's answers are given as tables (`Env`).

`items.dfy` holds the shared values: items, tensors and label vectors.

Behaviour of the code worth knowing:

- A class's running item list is refilled with an unshuffled copy of the class's list. The
  shuffle at train.py:481 runs on the list that has just been found empty.
- Class-aware sampling guarantees balance per round: each completed round of `len(classes)`
  draws is a permutation of the classes. An arbitrary window of that length need not be
  one.
- Uniform sampling reshuffles at the start of a pass (train.py:468). The cursor `i` is
  never reset, so a pass does not start at position 0 of the new order.
- `bad_items` is never cleared, so the count reported at a pass boundary is cumulative.
- The singleton duplicates are identifier strings, not image paths (first finding below).
- A class is duplicated only when its list has one entry. A landmark whose single image is
  named by two manifest rows has the list `[a, a]`, so it is not duplicated and occurs once
  in `TRAIN_CATS` (third finding below).

## Model

| member | source | states |
|---|---|---|
| Items.OneHot | train.py:406 | `to_categorical(k, N_CLASSES)`: length N_CLASSES, 1 at k, 0 everywhere else |
| Items.ZeroLabel | train.py:408 | the predict-mode label: N_CLASSES zeros |
| Items.OneHotSum | train.py:406 | a one-hot label sums to 1 |
| Items.ZeroLabelSum | train.py:408 | the predict-mode label sums to 0, so it names no class |
| Catalog.Unquote | train.py:180 | `s[1:-1]`: strips the first and last character; the empty string for strings shorter than 2 |
| Catalog.UnquoteQuoted | train.py:180 | unquoting a quoted identifier gives the identifier back |
| Catalog.BuildCatalog | train.py:165-206 | the manifest loop and the distractor block together build exactly `Build(rows, ids, include, distractors)` |
| Catalog.ReadManifest | train.py:175-193 | the manifest loop, updating the seven dictionaries and `cat` in place, computes `FromManifest` |
| Catalog.AddDistractorClass | train.py:195-206 | the distractor block computes `WithDistractors`: landmark -1 takes class `cat`, and every distractor id is filed under it |
| Catalog.FromManifestRepresents | train.py:175-193 | the catalog agrees with the reference definition on the kept rows and their distinct landmarks: class maps, per-landmark and per-class id lists, id maps |
| Catalog.AddEntryRepresents | train.py:181-193 | one kept row keeps the catalog in step with the reference definition |
| Catalog.KeptMembers | train.py:179-181 | a row is kept exactly when its unquoted id has an image file |
| Catalog.OnlyListedIdsKept | train.py:179-193 | an id is catalogued iff some row names it and its image exists; every class list holds only such ids |
| Catalog.ClassesContiguous | train.py:182-208 | class indices are exactly 0..cat-1, every landmark's class is below cat, and N_CLASSES == cat |
| Catalog.CatMapsInverse | train.py:182-188 | `landmark_to_cat` and `cat_to_landmark` are mutual inverses |
| Catalog.Distinct | train.py:182-188 | the distinct landmarks: the same members as the input, with no duplicates |
| Catalog.DistinctOrder | train.py:182-188 | a landmark seen earlier in the manifest gets an earlier class |
| Catalog.FirstSeenOrder | train.py:182-193 | class k is the k-th distinct kept landmark (first-seen order), and its id list is that landmark's kept ids in manifest order |
| Catalog.IdsMapToTheirLandmarkClass | train.py:189-191 | every catalogued id maps to its landmark's class, starts with seen count 0, and comes from a kept row |
| Catalog.LastRowWins | train.py:179-190 | an id is in `id_to_landmark` iff some kept row names it, and it maps to the landmark of the last such row |
| Catalog.AddDistractorIdsKeepsOtherIds | train.py:201-206 | an id that is not a distractor keeps its class, landmark and seen count through the distractor loop |
| Catalog.AddDistractorIdsEffect | train.py:201-206 | the distractor loop appends the ids to class k's list only, files each under k and landmark -1, and leaves the class maps alone |
| Catalog.ExtendInverse | train.py:196-199 | giving a fresh landmark the next index keeps the two maps inverse over a contiguous range |
| Catalog.DistractorClassAppended | train.py:195-208 | without a manifest landmark -1, the distractors form class cat, N_CLASSES == cat + 1, the maps stay inverse, and no other class changes |
| Catalog.DistractorLandmarkCollision | train.py:195-208 | when the manifest already has landmark -1, N_CLASSES equals the distractor class index cat, so that class lies outside the one-hot range |
| TrainSet.SingletonsCount | train.py:218 | the comprehension adds an id exactly once per class whose list is `[id]` |
| TrainSet.BuildClassKeys | train.py:182-206 | every class key of a built catalog is at most cat, so iterating classes 0..cat covers `cat_to_ids` in its insertion order |
| TrainSet.DupIdsAreSingletons | train.py:218 | `ids_to_dup` holds an id iff some class of the final catalog (distractors included) is exactly `[id]`, with that multiplicity |
| TrainSet.ClassListIdsListed | train.py:181-206 | every id in a class list is a training image stem or, with distractors, a distractor id |
| TrainSet.Files | train.py:146 | the training files, one `<dir>/<stem>.jpg` item per listed stem |
| TrainSet.DuplicatesAreBareIds | train.py:218-222 | as written, each duplicate enters the list as a bare id, whose path is no image file's path |
| TrainSet.DuplicateIsNotAFile | train.py:218-222 | the smallest manifest that shows it: one kept row gives the list `[train-dl/a.jpg, "a"]` |
| TrainSet.SoleIdsMembers | train.py:218 | corrected duplicates: an id is duplicated iff some class's list names that image and nothing else, however many times |
| TrainSet.DupIdsFixedMembers | train.py:218 | for a built catalog, an id is a corrected duplicate iff some class's list names that image alone |
| TrainSet.DupIdsFixedCatalogued | train.py:218 | every corrected duplicate is catalogued |
| TrainSet.TrainListIsListedFiles | train.py:218-225 | corrected list: its length is files + duplicates + distractors, and every entry is an existing image file |
| TrainSet.AsWrittenShape | train.py:218-225 | as written, the list is the training files, then the duplicates as bare ids, then (with distractors) the distractor files |
| TrainSet.TrainListShape | train.py:218-225 | corrected, the list is the training files, then the duplicates as files, then (with distractors) the distractor files |
| TrainSet.TrainCats | train.py:212-234 | `TRAIN_CATS` is defined iff every entry's id is catalogued, and then holds each entry's class |
| TrainSet.CataloguedIds | train.py:175-206 | the catalogued ids are the kept rows' ids plus the distractor ids |
| TrainSet.DupIdsCatalogued | train.py:218 | every duplicated id is catalogued |
| TrainSet.CatsDefinedByStems | train.py:222-234 | when the duplicates and distractor files are catalogued, `get_class` succeeds on the list iff every training image is catalogued |
| TrainSet.AsWrittenCatsDefined | train.py:212-234 | as written, `TRAIN_CATS` is defined iff every training image is catalogued |
| TrainSet.TrainListCatsDefined | train.py:212-234 | corrected, `TRAIN_CATS` is defined iff every training image is catalogued |
| TrainSet.TrainCatsDefinedIff | train.py:212-234 | for the as-written list and for the corrected list alike, `get_class` succeeds on the whole list iff every training image has a manifest row or is a distractor |
| TrainSet.ClassListsLabelled | train.py:175-206 | when rows agree on each image's landmark and distractors are not training images, every class list is non-empty and each id on class k's list has class k |
| TrainSet.ClassListsNoRepeats | train.py:175-206 | when no image has two rows and the distractor ids are distinct, no class list names an image twice |
| TrainSet.EveryClassTwice | train.py:218-234 | corrected: when every training image has a row, rows agree on landmarks and distractors are not training images, `TRAIN_CATS` is defined and every class occurs in it at least twice |
| TrainSet.EveryClassTwiceAsWritten | train.py:218-234 | as written, the same holds when, in addition, no image has two rows and the distractor ids are distinct |
| TrainSet.TwoThenOneCatalog | train.py:175-193 | three kept rows, two with one landmark and one with another, give classes 0 and 1 with lists `[x, y]` and `[z]` |
| TrainSet.SingletonScenario | train.py:175-234 | rows x:10, y:10, z:20 give 2 classes, the list `[x, y, z, "z"]` and `TRAIN_CATS == [0, 0, 1, 1]` |
| TrainSet.RepeatedRowLeavesSingleton | train.py:175-234 | rows a:10, a:10, b:20: class 0's list is `[a, a]`; as written `TRAIN_CATS == [0, 1, 1]`, so class 0 occurs once; corrected `[0, 1, 0, 1]` |
| Processing.ModuleForXception | train.py:239-271 | the Xception normaliser is used iff the classifier is Xception or unknown; a known name gets its table entry |
| Processing.CheckedShapeIff | train.py:361-391 | the stepwise checks accept iff the judged image (fast decoder if 3-D, else PIL) is 2-D or 3-D with 3 channels; the accepted shape is 3-D with 3 channels |
| Processing.ProcessItemOutcome | train.py:344-410 | rejected iff the judged image is unusable; crash iff usable, not predicting, and the id is uncatalogued or its class is at least N_CLASSES; a ready image is crop-size RGB with the classifier's normaliser |
| Processing.AugmentationGate | train.py:393-398 | augmented iff training, aug and draw < probability |
| Processing.LabelOfReadyItem | train.py:405-408 | the predict-mode label is all zeros; otherwise one-hot at `id_to_cat[id]` |
| Processing.FastDecodeSuffices | train.py:361-391 | PIL is never consulted when the fast decoder yields a 3-D RGB array |
| Assembler.Range | train.py:448 | `list(range(n))` |
| Assembler.RangeCount | train.py:448 | every class below n occurs once in `range(n)`, and nothing else occurs |
| Assembler.BalancedRounds | train.py:475-479 | over completed rounds, each class is drawn exactly once per round |
| Assembler.GroupByClass | train.py:441-446 | the grouping loop: a key per class present; each list is that class's items in list order |
| Assembler.ClassItemsMembers | train.py:441-446 | a class's list holds exactly that class's items, with their multiplicities |
| Assembler.RunningFor | train.py:480-483 | a class's running list is always a prefix of its item list |
| Assembler.CycleStep | train.py:480-483 | each pop (after a refill when empty) yields the next item of the backwards cycle through the class list |
| Assembler.RoundsStep | train.py:476-479 | popping a class (after a reshuffle when empty) preserves the round invariant: running copy a prefix of `classes`, rounds are permutations |
| Assembler.ClassDrawStep | train.py:480-483 | one item draw: fails iff the class has no items; otherwise the item is the cycle's next and has that class |
| Assembler.ClassRounds.constructor | train.py:448-449 | `classes = range(N_CLASSES)`, empty running copy, no rounds |
| Assembler.HistoryStep | train.py:476-479 | a pop extends the history of drawn classes (closed rounds, then the round in progress) by exactly the popped class |
| Assembler.ClassRounds.Pop | train.py:476-479 | pops the last class of the running copy (refilled from the new shuffle when empty); a round closes when the copy empties; no classes means None |
| Assembler.ClassLists.constructor | train.py:441-447 | the per-class lists, with running copies equal to them |
| Assembler.ClassLists.Pop | train.py:480-483 | None iff the class has no items; otherwise the next cycle item, of that class, with the draw count advanced |
| Assembler.Assembler.constructor | train.py:428-463 | generator setup: `training` cleared in predict mode, one worker when predicting, empty bad-item set, counters at 0 |
| Assembler.Assembler.StartPass | train.py:465-472 | uniform training takes a permutation of the items; `batch_idx` and `items_done` restart at 0; `i` carries on |
| Assembler.Assembler.DrawByClass | train.py:475-483 | class-aware draw: the class queue moves on as a class pop says; with no class, None and the item lists untouched; otherwise the popped class's draw count advances and the result is that class's next cycle item (None when the class has no items), of that class |
| Assembler.Assembler.Draw | train.py:475-486 | the item is `NextDraw` of the old state: uniform `items[i % len(items)]` with `i + 1`; class-aware the popped class's next cycle item, or None for a pop from an empty list; the new state is `DrawStep`: `classes`, the running copy, the rounds and the draw counts move as one class pop and one item pop say, and nothing else changes |
| Assembler.Assembler.Dispatch | train.py:474-493 | the sampling state moves as `DrawStep` says; `IndexError` iff `NextDraw` is None; otherwise a job is sent iff predicting or the id has a seen count, else `KeyError`; a sent job carries the drawn item; outside predict mode `aug` iff the seen count is non-zero, and that count rises by 1; in predict mode `aug` is false and counts are untouched |
| Assembler.Assembler.Work | train.py:412-426 | a worker writes its own slot only for a good example; a rejected item leaves the slots alone; a raising `process_item` gives no result |
| Assembler.Assembler.Collect | train.py:495-518 | a good result copies slot `worker_id` into row `batch_idx` only; a failure zero-fills the row in predict mode and leaves the buffers alone otherwise; it is added to `bad_items`; the batch is yielded exactly when full, and `batch_idx` returns to 0 |
| Writer.ChunksPartition | train.py:801-803 | the chunks concatenate to the ids; each holds 1..b ids, all but the last exactly b; there are ceil(n/b) of them |
| Writer.RowFor | train.py:790-799 | a row is non-empty iff score >= threshold and landmark != -1, and then holds (landmark, score) |
| Writer.ExpectedRowRule | train.py:790-822 | an id gets a non-empty row iff its image loads, its score reaches the threshold and its landmark is not -1 |
| Writer.AsWrittenKeysOnlyIdx | train.py:793-794 | as written, a minibatch adds no logits key other than the loop variable `idx` |
| Writer.AsWrittenLosesLogits | train.py:790-794 | two ids of one minibatch with the same landmark: as written, the first id's logits are missing; corrected, both are present |
| Writer.LogitsOfEntries | train.py:790-794 | the reference logits table has an entry (landmark, id) iff id is loaded and classified as that landmark, and it holds that image's logits |
| Writer.MinibatchLogitsExtends | train.py:787-799 | the corrected minibatch update equals the reference table of everything flushed so far |
| Writer.MinibatchRowsExpected | train.py:787-799 | `predict_minibatch` writes, for each buffered id, the row its prediction calls for |
| Writer.ExpectedRowsIds | train.py:787-799 | the expected rows of a sequence of ids carry exactly those ids, in order |
| Writer.RejectedRowsStep | train.py:821-822 | a rejected id's immediate empty row keeps the row accounting |
| Writer.FlushRowsStep | train.py:817-826 | a flush writes the buffered ids' rows and empties the buffer without losing an id |
| Writer.ImageBuffer.Push | train.py:813-815 | `imgs[batch_id] = img`, `batch_idx.append(idx)`, `batch_id += 1`; `batch_id == len(batch_idx)` is kept |
| Writer.ImageBuffer.Clear | train.py:819-820 | `batch_id = 0`, `batch_idx = []` |
| Writer.PredictionWriter.constructor | train.py:782-785 | an empty buffer of `batch_size` images, no rows, an empty logits table |
| Writer.PredictionWriter.Flush | train.py:787-799 | appends the buffered ids' expected rows and empties the buffer, keeping the row and logits accounting of `Valid()`; the logits accounting is the corrected one (see Findings train.py:794) |
| Writer.PredictionWriter.Accept | train.py:809-822 | a rejected id's empty row is written at once; a loaded id is buffered, and a full buffer is flushed; `batch_id < batch_size` between ids |
| Writer.PredictionWriter.AcceptChunk | train.py:805-822 | handles a chunk's ids in order |
| Writer.PredictionWriter.Finish | train.py:824-826 | flushes a partly filled buffer; then every handled id has exactly one row and the logits table is complete, corrected (see Findings train.py:794) |
| Writer.FinalAccounts | train.py:824-826 | with the buffer empty, the accounting gives one expected row per id and a complete logits table, corrected (see Findings train.py:794) |
| Writer.WritePredictions | train.py:774-826 | exactly one row per id (as multisets, so order may differ), each the row its load and prediction call for; with a logits table, exactly the loaded ids filed under their landmarks with their logits, corrected (see Findings train.py:794) |

## Left out

- I/O is not modelled: argument parsing, directory globbing, and opening, reading and
  writing the CSV files. The manifest is given as parsed `(quoted id, landmark)` rows, and
  the image listings as sets and sequences.
- `TRAIN_JPGS` and `DISTRACTOR_IDS` are Python sets with an arbitrary iteration order.
  The model takes that order as an input sequence.
- Pixel work is not modelled: the JPEG and PIL decoders, resizing, the imgaug pipeline
  and the `preprocess_input` normalisers. A tensor records only its item, whether it was
  augmented, its normaliser and its shape.
- Random choices are inputs. `np.random.random()` is a real parameter. Each
  `random.shuffle` is a caller-supplied permutation, required to have the same multiset.
- Concurrency is not modelled: worker processes, job/result queues, shared memory and
  locks. `Work` runs one job to completion, and the caller decides whether the next step
  dispatches or collects. The single lock shared by all workers (`[Lock()] * n_workers`)
  is not modelled.
- A yielded batch is a copy of `X`/`y`. The source yields the same arrays every time, so
  they are overwritten after the yield.
- The initial contents of `np.empty` buffers are placeholders (`Zeros`, empty label).
- The neural network is not modelled: `model.predict`, the float `argmax`, and the
  formatting of `"{landmark} {score}"`. Each image's prediction (class, score, logits) is
  given as a table, and a non-empty row holds the pair (landmark, score).
- The `np.savez` dump of the logits table is left out, because it is file I/O.
- Writer.WritePredictions: requires that every predicted class has a landmark. The source
  would raise `KeyError` at train.py:792 otherwise; the model does not model that crash.
- Assembler.Assembler.constructor: with class-aware sampling, it requires every item to be
  catalogued. The source raises `KeyError` at train.py:444 otherwise.
- Assembler.Assembler.constructor: requires a CPU count of at least 1, which
  `cpu_count()` always gives, so it excludes no real input. With exactly one CPU,
  `nWorkers` is 0 and no `Work` call is possible; the source then waits forever for a
  result, and the model does not capture that hang.
- Assembler.Assembler.Dispatch: it requires a non-empty item list. With no items the
  source never dispatches, because `items_done < len(items)` is false.
- Assembler.Assembler.Dispatch: the seen counts are a field private to one generator,
  copied from the catalog when it is built. In the source `id_times_seen` is one
  module-level dict that every non-predict dispatch updates, shared by the training and
  validation generators (train.py:740-742). So a validation dispatch of an id can turn on
  augmentation for a later training draw of the same id, and the model does not capture
  that.
- Assembler.Assembler.Work: a raising `process_item` gives no result, but the model does
  not capture that the worker process dies.
- Writer.PredictionWriter.Flush: the logits accounting it keeps describes the corrected
  update, which files each logit under its own id (`_idx`). The as-written update is modelled separately
  and shown to lose logits (second finding).
- Writer.PredictionWriter.Finish: its logits table is the corrected one, as for `Flush`.
- Writer.FinalAccounts: its logits table is the corrected one, as for `Flush`.
- Writer.WritePredictions: its logits table is the corrected one, as for `Flush`.
- Writer.Chunks: requires a batch size of at least 1. At train.py:802,
  `range(0, n, 0)` raises `ValueError`.
- Writer.ChunksPartition: requires a batch size of at least 1, as `Chunks` does.
- Writer.PredictionWriter.constructor: requires a batch size of at least 1. `Pool(0)`
  raises at train.py:774, and train.py:139 gives 0 when no GPU is found.
- Writer.WritePredictions: requires a batch size of at least 1, as the constructor does.
- Assembler.Assembler.constructor: requires a batch size of at least 1. With 0, the first
  collected result is written to a row of an empty buffer, which raises.
- Items.IdOf: takes an item's identifier as given. `get_id` strips the directory and the
  last extension, so an identifier containing `/` or `.` would be cut (`get_id("a.b")` is
  `"a"`). The model assumes identifiers contain neither.

## Findings

| source | as written | input that shows it | evidently intended | confidence | as-written member | corrected member |
|---|---|---|---|---|---|---|
| train.py:218-222 | `ids_to_dup` holds identifier strings. They are appended to a list of image paths, so each duplicate is a bare id that names no file, and the decoders reject it. | One manifest row `"a"` with landmark 10 and image `train-dl/a.jpg`. The list becomes `[train-dl/a.jpg, "a"]`. | Append the singleton's image file, so that the class really occurs twice. | not executed | TrainSet.DuplicateIsNotAFile | TrainSet.TrainListIsListedFiles |
| train.py:794 | `results[landmark][idx] = logit` uses `idx`, the outer loop's last identifier, for every row of the minibatch. Logits are filed under the wrong id, and earlier ones of the same landmark are lost. | Ids "a" and "b" loaded into one minibatch, both classified as the same landmark, flushed while the loop is at "b". "a" has no entry. | `results[landmark][_idx] = logit` | not executed | Writer.AsWrittenLosesLogits | Writer.MinibatchLogitsExtends |
| train.py:218 | `len(ids) == 1` counts manifest rows, not images. Two rows for one image give its class the list `[a, a]`, so that image is not duplicated. | Rows `"a"` 10, `"a"` 10, `"b"` 20, with images a and b. `TRAIN_CATS` is `[0, 1, 1]`, so class 0 occurs once. | `len(set(ids)) == 1`, so that every class occurs at least twice | not executed | TrainSet.RepeatedRowLeavesSingleton | TrainSet.EveryClassTwice |
