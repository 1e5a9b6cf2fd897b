/** The batch generator `gen` (train.py:412-521) as a single-threaded state machine. The
    generator's three activities are its methods: starting a pass over the items,
    dispatching one job (choosing an item and its augmentation flag) and collecting one
    worker result into the batch buffer. A worker's `process_item` call and its write into
    the shared slots is one more method. Which activity happens next (queue full or empty)
    is left to the caller; the random shuffles are permutations supplied by the caller. */
module Assembler {
  import opened Items
  import opened Processing

  /** What the generator puts on the job queue. */
  datatype Job = Job(item: Item, aug: bool, training: bool, predict: bool)

  /** What a worker puts on the result queue: its slot, whether the slot holds a good
      example, and the item. */
  datatype WorkerResult = WorkerResult(workerId: nat, good: bool, item: Item)

  /** A yielded batch: images and labels while training or validating, images alone when
      predicting. */
  datatype Batch = TrainingBatch(xs: seq<Tensor>, ys: seq<seq<int>>) | PredictionBatch(xs: seq<Tensor>)

  /** The exceptions dispatching can raise: `pop` from an empty list (a class without
      items, or no classes at all) and a `KeyError` on an identifier without a seen count. */
  datatype Error = PopFromEmptyList | UncataloguedId

  datatype Dispatched = Sent(job: Job) | Raised(error: Error)

  // ---------------------------------------------------------------------------
  // Class-aware rounds
  // ---------------------------------------------------------------------------

  /** `list(range(n))`. */
  function Range(n: nat): (r: seq<nat>)
    ensures |r| == n && forall j :: 0 <= j < n ==> r[j] == j
  {
    seq(n, j requires 0 <= j < n => j as nat)
  }

  /** Every class below n occurs once in `range(n)`, nothing else occurs. */
  lemma {:induction false} RangeCount(n: nat, k: int)
    ensures multiset(Range(n))[k] == if 0 <= k < n then 1 else 0
  {
    if n > 0 {
      RangeCount(n - 1, k);
      assert Range(n) == Range(n - 1) + [n - 1];
    }
  }

  /** The classes drawn over consecutive rounds, in draw order. */
  function Flatten(rounds: seq<seq<nat>>): seq<nat>
  {
    if rounds == [] then [] else Flatten(rounds[..|rounds| - 1]) + rounds[|rounds| - 1]
  }

  /** Class balance: when every completed round is a permutation of 0..n-1, each class has
      been drawn exactly once per round and no other index has been drawn. */
  lemma {:induction false} BalancedRounds(rounds: seq<seq<nat>>, n: nat, k: int)
    requires forall r :: 0 <= r < |rounds| ==> multiset(rounds[r]) == multiset(Range(n))
    ensures multiset(Flatten(rounds))[k] == if 0 <= k < n then |rounds| else 0
  {
    RangeCount(n, k);
    if rounds != [] {
      BalancedRounds(rounds[..|rounds| - 1], n, k);
    }
  }

  /** The items of class k among `items`, in list order (`items_per_class[k]`). */
  function ClassItems(items: seq<Item>, idToCat: map<string, nat>, k: nat): seq<Item>
    requires forall j :: 0 <= j < |items| ==> IdOf(items[j]) in idToCat
  {
    if items == [] then []
    else
      var last := items[|items| - 1];
      ClassItems(items[..|items| - 1], idToCat, k) + (if idToCat[IdOf(last)] == k then [last] else [])
  }

  /** `items_per_class[k]` holds exactly the items of class k, each as often as in `items`. */
  lemma {:induction false} ClassItemsMembers(items: seq<Item>, idToCat: map<string, nat>, k: nat)
    requires forall j :: 0 <= j < |items| ==> IdOf(items[j]) in idToCat
    ensures forall item :: multiset(ClassItems(items, idToCat, k))[item] ==
              if IdOf(item) in idToCat && idToCat[IdOf(item)] == k then multiset(items)[item] else 0
  {
    if items != [] {
      var init, last := items[..|items| - 1], items[|items| - 1];
      ClassItemsMembers(init, idToCat, k);
      assert items == init + [last];
      var tail := if idToCat[IdOf(last)] == k then [last] else [];
      assert ClassItems(items, idToCat, k) == ClassItems(init, idToCat, k) + tail;
      forall item
        ensures multiset(ClassItems(items, idToCat, k))[item] ==
                if IdOf(item) in idToCat && idToCat[IdOf(item)] == k then multiset(items)[item] else 0
      {
        assert multiset(items)[item] == multiset(init)[item] + multiset([last])[item];
        assert multiset(ClassItems(items, idToCat, k))[item] ==
               multiset(ClassItems(init, idToCat, k))[item] + multiset(tail)[item];
      }
    }
  }

  /** The grouping loop at train.py:442-445: every item is appended to its class's list. */
  method GroupByClass(items: seq<Item>, idToCat: map<string, nat>) returns (m: map<nat, seq<Item>>)
    requires forall j :: 0 <= j < |items| ==> IdOf(items[j]) in idToCat
    ensures forall k :: k in m <==> exists j :: 0 <= j < |items| && idToCat[IdOf(items[j])] == k
    ensures forall k :: k in m ==> m[k] == ClassItems(items, idToCat, k)
  {
    m := map[];
    var n := 0;
    while n < |items|
      invariant 0 <= n <= |items|
      invariant forall k :: k in m <==> exists j :: 0 <= j < n && idToCat[IdOf(items[j])] == k
      invariant forall k :: k in m ==> m[k] == ClassItems(items[..n], idToCat, k)
    {
      var item := items[n];
      var classIdx := idToCat[IdOf(item)];
      assert items[..n + 1] == items[..n] + [item];
      assert forall k :: k !in m ==> ClassItems(items[..n], idToCat, k) == [] by {
        forall k | k !in m
          ensures ClassItems(items[..n], idToCat, k) == []
        {
          ClassItemsAbsent(items[..n], idToCat, k);
        }
      }
      m := m[classIdx := Get(m, classIdx) + [item]];
      n := n + 1;
    }
    assert items[..n] == items;
  }

  lemma {:induction false} ClassItemsAbsent(items: seq<Item>, idToCat: map<string, nat>, k: nat)
    requires forall j :: 0 <= j < |items| ==> IdOf(items[j]) in idToCat
    requires forall j :: 0 <= j < |items| ==> idToCat[IdOf(items[j])] != k
    ensures ClassItems(items, idToCat, k) == []
  {
    if items != [] {
      ClassItemsAbsent(items[..|items| - 1], idToCat, k);
    }
  }

  /** The d-th draw (from 0) from a class whose list is L: the list is popped from the end
      and refilled with an unshuffled copy, so draws cycle through L backwards. */
  function CycleItem(L: seq<Item>, d: nat): Item
    requires |L| > 0
  {
    L[|L| - 1 - d % |L|]
  }

  /** The running list of a class after d draws. It starts as a full copy of L. */
  function RunningFor(L: seq<Item>, d: nat): (r: seq<Item>)
    ensures |r| <= |L| && r == L[..|r|]
  {
    if |L| == 0 || d == 0 then L else L[..|L| - 1 - (d - 1) % |L|]
  }

  /** One draw from a class: refill the running list when it is empty, then pop the last
      item; the item popped is the d-th draw of the cycle and what remains is the running
      list after d + 1 draws. */
  lemma CycleStep(L: seq<Item>, d: nat)
    requires |L| > 0
    ensures var run := RunningFor(L, d);
      var src := if |run| == 0 then L else run;
      && |src| > 0 && src[|src| - 1] == CycleItem(L, d)
      && src[..|src| - 1] == RunningFor(L, d + 1)
  {
    var n := |L|;
    if d > 0 {
      if (d - 1) % n == n - 1 {
        assert d % n == 0 by { ModStep(d, n); }
      } else {
        assert d % n == (d - 1) % n + 1 by { ModStep(d, n); }
      }
    }
  }

  lemma ModStep(d: nat, n: nat)
    requires d > 0 && n > 0
    ensures (d - 1) % n == n - 1 ==> d % n == 0
    ensures (d - 1) % n != n - 1 ==> d % n == (d - 1) % n + 1
  {
    var q, r := (d - 1) / n, (d - 1) % n;
    assert d - 1 == q * n + r;
    if r == n - 1 {
      assert d == (q + 1) * n + 0;
      ModOfSum(q + 1, n, 0);
    } else {
      assert d == q * n + (r + 1);
      ModOfSum(q, n, r + 1);
    }
  }

  lemma ModOfSum(q: int, n: int, r: int)
    requires n > 0 && 0 <= r < n
    ensures (q * n + r) % n == r
  {
    var a := q * n + r;
    var q', r' := a / n, a % n;
    assert (q - q') * n == r' - r;
    if q - q' >= 1 {
      MulAtLeast(q - q', n);
    } else if q' - q >= 1 {
      MulAtLeast(q' - q, n);
    }
  }

  lemma {:induction false} MulAtLeast(x: int, n: int)
    requires x >= 1 && n > 0
    ensures x * n >= n
  {
    if x > 1 {
      MulAtLeast(x - 1, n);
      assert x * n == (x - 1) * n + n;
    }
  }

  /** A draw count of a class; a class never drawn has count 0. */
  function Count(m: map<nat, nat>, k: nat): nat
  {
    if k in m then m[k] else 0
  }

  /** `classes` is a permutation of 0..n-1 and its running copy a prefix of it (popped
      from the end); the classes drawn in the round in progress and those still to draw
      make up `classes`, and every completed round is a permutation of 0..n-1. */
  ghost predicate RoundsInv(classes: seq<nat>, classesRunning: seq<nat>, current: seq<nat>, rounds: seq<seq<nat>>, n: nat)
  {
    && multiset(classes) == multiset(Range(n))
    && |classesRunning| <= |classes| && classesRunning == classes[..|classesRunning|]
    && (classesRunning == [] ==> current == [])
    && (classesRunning != [] ==> multiset(current) + multiset(classesRunning) == multiset(classes))
    && (forall r :: 0 <= r < |rounds| ==> multiset(rounds[r]) == multiset(Range(n)))
  }

  /** Every item listed under class k has class k. */
  ghost predicate ItemsInv(itemsPerClass: map<nat, seq<Item>>, idToCat: map<string, nat>)
  {
    forall k, j :: k in itemsPerClass && 0 <= j < |itemsPerClass[k]| ==>
      IdOf(itemsPerClass[k][j]) in idToCat && idToCat[IdOf(itemsPerClass[k][j])] == k
  }

  /** Every class's running list is what its draw count dictates. */
  ghost predicate RunningInv(running: map<nat, seq<Item>>, itemsPerClass: map<nat, seq<Item>>, draws: map<nat, nat>)
  {
    forall k {:trigger Get(running, k)} :: Get(running, k) == RunningFor(Get(itemsPerClass, k), Count(draws, k))
  }

  /** The queue a class is popped from: the running copy, or the fresh shuffle when empty. */
  function Queue(classesRunning: seq<nat>, classPerm: seq<nat>): seq<nat>
  {
    if classesRunning == [] then classPerm else classesRunning
  }

  /** Popping class c closes the round when the queue empties. */
  function NextRounds(rounds: seq<seq<nat>>, current: seq<nat>, rest: seq<nat>, c: nat): seq<seq<nat>>
  {
    if rest == [] then rounds + [current + [c]] else rounds
  }

  function NextCurrent(current: seq<nat>, rest: seq<nat>, c: nat): seq<nat>
  {
    if rest == [] then [] else current + [c]
  }

  lemma RoundsStep(classes: seq<nat>, classesRunning: seq<nat>, current: seq<nat>, rounds: seq<seq<nat>>, n: nat,
                   classPerm: seq<nat>)
    requires RoundsInv(classes, classesRunning, current, rounds, n)
    requires classesRunning == [] ==> multiset(classPerm) == multiset(classes)
    ensures var q := Queue(classesRunning, classPerm);
      var cl := if classesRunning == [] then classPerm else classes;
      && (q == [] ==> RoundsInv(cl, q, current, rounds, n))
      && (q != [] ==>
            var c, rest := q[|q| - 1], q[..|q| - 1];
            RoundsInv(cl, rest, NextCurrent(current, rest, c), NextRounds(rounds, current, rest, c), n))
  {
    var q := Queue(classesRunning, classPerm);
    var cl := if classesRunning == [] then classPerm else classes;
    QueueStep(classes, classesRunning, current, rounds, n, classPerm);
    if q != [] {
      var c, rest := q[|q| - 1], q[..|q| - 1];
      assert q == rest + [c];
      assert rest == cl[..|rest|];
      assert multiset(current + [c]) + multiset(rest) == multiset(cl);
      if rest == [] {
        AppendRound(rounds, current + [c], n);
      }
    }
  }

  /** The queue popped from is a prefix of the new `classes`, which is a permutation of the
      classes, and the round in progress together with the queue makes up one round. */
  lemma QueueStep(classes: seq<nat>, classesRunning: seq<nat>, current: seq<nat>, rounds: seq<seq<nat>>, n: nat,
                  classPerm: seq<nat>)
    requires RoundsInv(classes, classesRunning, current, rounds, n)
    requires classesRunning == [] ==> multiset(classPerm) == multiset(classes)
    ensures var q := Queue(classesRunning, classPerm);
      var cl := if classesRunning == [] then classPerm else classes;
      && multiset(cl) == multiset(Range(n))
      && |q| <= |cl| && q == cl[..|q|]
      && multiset(current) + multiset(q) == multiset(cl)
      && (q == [] ==> current == [])
  {
    if classesRunning == [] {
      assert classPerm == classPerm[..|classPerm|];
    }
  }

  /** Closing a round that is a permutation of the classes keeps every round one. */
  lemma AppendRound(rounds: seq<seq<nat>>, round: seq<nat>, n: nat)
    requires forall r :: 0 <= r < |rounds| ==> multiset(rounds[r]) == multiset(Range(n))
    requires multiset(round) == multiset(Range(n))
    ensures forall r :: 0 <= r < |rounds + [round]| ==> multiset((rounds + [round])[r]) == multiset(Range(n))
  {
    forall r | 0 <= r < |rounds + [round]|
      ensures multiset((rounds + [round])[r]) == multiset(Range(n))
    {
      if r < |rounds| {
        assert (rounds + [round])[r] == rounds[r];
      }
    }
  }

  /** The classes drawn so far, completed rounds followed by the round in progress, grow
      by exactly the class popped. */
  lemma HistoryStep(rounds: seq<seq<nat>>, current: seq<nat>, rest: seq<nat>, c: nat)
    ensures Flatten(NextRounds(rounds, current, rest, c)) + NextCurrent(current, rest, c)
              == Flatten(rounds) + current + [c]
  {
    if rest == [] {
      assert (rounds + [current + [c]])[..|rounds|] == rounds;
    }
  }

  /** One draw from class k, on the values: the list popped from (the running list, or
      the class's list when that is empty) is empty exactly for a class without items;
      otherwise its last item is the next item of the cycle, it has class k, and the
      running lists and draw counts stay in step. */
  lemma ClassDrawStep(running: map<nat, seq<Item>>, itemsPerClass: map<nat, seq<Item>>, draws: map<nat, nat>,
                      idToCat: map<string, nat>, k: nat)
    requires RunningInv(running, itemsPerClass, draws) && ItemsInv(itemsPerClass, idToCat)
    ensures var L := Get(itemsPerClass, k);
      var d := Count(draws, k);
      var run := Get(running, k);
      var src := if |run| == 0 then L else run;
      && (L == [] <==> src == [])
      && (L == [] ==> RunningInv(running[k := []], itemsPerClass, draws))
      && (L != [] ==>
            && src[|src| - 1] == CycleItem(L, d)
            && IdOf(CycleItem(L, d)) in idToCat && idToCat[IdOf(CycleItem(L, d))] == k
            && RunningInv(running[k := src[..|src| - 1]], itemsPerClass, draws[k := d + 1]))
  {
    var L := Get(itemsPerClass, k);
    var d := Count(draws, k);
    RunningStep(running, itemsPerClass, draws, k);
    if L != [] {
      CycleStep(L, d);
      assert k in itemsPerClass;
      var j := |L| - 1 - d % |L|;
      assert itemsPerClass[k][j] == CycleItem(L, d);
    }
  }

  lemma RunningStep(running: map<nat, seq<Item>>, itemsPerClass: map<nat, seq<Item>>, draws: map<nat, nat>, k: nat)
    requires RunningInv(running, itemsPerClass, draws)
    ensures var L := Get(itemsPerClass, k);
      var d := Count(draws, k);
      && (L == [] ==> RunningInv(running[k := []], itemsPerClass, draws))
      && (L != [] ==> RunningInv(running[k := RunningFor(L, d + 1)], itemsPerClass, draws[k := d + 1]))
  {
    var L := Get(itemsPerClass, k);
    var d := Count(draws, k);
    if L == [] {
      forall x
        ensures Get(running[k := []], x) == RunningFor(Get(itemsPerClass, x), Count(draws, x))
      {
        if x != k {
          assert Get(running[k := []], x) == Get(running, x);
        }
      }
    } else {
      forall x
        ensures Get(running[k := RunningFor(L, d + 1)], x) == RunningFor(Get(itemsPerClass, x), Count(draws[k := d + 1], x))
      {
        if x != k {
          assert Get(running[k := RunningFor(L, d + 1)], x) == Get(running, x);
        }
      }
    }
  }

  // ---------------------------------------------------------------------------
  // Class-aware sampling state (train.py:442-448, 475-483)
  // ---------------------------------------------------------------------------

  /** `classes` and `classes_running_copy`: classes are popped from the end of the running
      copy, which is refilled with a fresh shuffle of `classes` when empty. The ghost
      fields record the completed rounds and the round in progress. */
  class ClassRounds {
    const n: nat
    var classes: seq<nat>
    var running: seq<nat>
    ghost var rounds: seq<seq<nat>>
    ghost var current: seq<nat>

    ghost predicate Valid()
      reads this
    {
      RoundsInv(classes, running, current, rounds, n)
    }

    /** `classes = list(range(N_CLASSES))`, `classes_running_copy = []`. */
    constructor (n: nat)
      ensures Valid() && this.n == n
      ensures classes == Range(n) && running == [] && rounds == [] && current == []
    {
      this.n := n;
      classes := Range(n);
      running := [];
      rounds := [];
      current := [];
    }

    /** The state after a pop with shuffle `perm`: `classes` becomes the shuffle when the
        running copy was empty; the last class of the queue leaves the running copy and
        joins the round in progress, which closes when the copy empties. */
    twostate predicate Popped(perm: seq<nat>)
      reads this
    {
      var q := Queue(old(running), perm);
      && classes == (if old(running) == [] then perm else old(classes))
      && (q == [] ==> running == [] && rounds == old(rounds) && current == old(current))
      && (q != [] ==>
            && running == q[..|q| - 1]
            && rounds == NextRounds(old(rounds), old(current), q[..|q| - 1], q[|q| - 1])
            && current == NextCurrent(old(current), q[..|q| - 1], q[|q| - 1]))
    }

    /** Popping a class (train.py:476-479): `perm` is the shuffle of `classes` used when
        the running copy is empty. A round closes when the running copy empties; popping
        when there are no classes at all raises. */
    method Pop(perm: seq<nat>) returns (k: Option<nat>)
      requires Valid()
      requires running == [] ==> multiset(perm) == multiset(classes)
      modifies this
      ensures Valid()
      ensures Popped(perm)
      ensures var q := Queue(old(running), perm);
        && (q == [] <==> k.None?)
        && (q != [] ==> k == Some(q[|q| - 1]))
    {
      var q := Queue(running, perm);
      RoundsStep(classes, running, current, rounds, n, perm);
      classes := if running == [] then perm else classes;
      if q == [] {
        running := q;
        k := None;
      } else {
        var c, rest := q[|q| - 1], q[..|q| - 1];
        rounds := NextRounds(rounds, current, rest, c);
        current := NextCurrent(current, rest, c);
        running := rest;
        k := Some(c);
      }
    }
  }

  /** `items_per_class` and `items_per_class_running`: each class's running list starts
      as a copy of its list and is popped from the end; an empty running list is replaced
      by an unshuffled copy (the shuffle at train.py:481 runs on the empty list). The ghost
      field counts the draws per class. */
  class ClassLists {
    const idToCat: map<string, nat>
    const itemsPerClass: map<nat, seq<Item>>
    var running: map<nat, seq<Item>>
    ghost var draws: map<nat, nat>

    ghost predicate Valid()
      reads this
    {
      ItemsInv(itemsPerClass, idToCat) && RunningInv(running, itemsPerClass, draws)
    }

    /** Grouping the items by class (train.py:441-446); `get_class` raises for an
        uncatalogued item, so every item must be catalogued. */
    constructor (items: seq<Item>, idToCat: map<string, nat>)
      requires forall j :: 0 <= j < |items| ==> IdOf(items[j]) in idToCat
      ensures Valid() && this.idToCat == idToCat
      ensures forall k :: k in itemsPerClass <==> exists j :: 0 <= j < |items| && idToCat[IdOf(items[j])] == k
      ensures forall k :: k in itemsPerClass ==> itemsPerClass[k] == ClassItems(items, idToCat, k)
      ensures running == itemsPerClass && draws == map[]
    {
      var m := GroupByClass(items, idToCat);
      this.idToCat := idToCat;
      itemsPerClass := m;
      running := m;
      draws := map[];
      new;
      forall k, j | k in m && 0 <= j < |m[k]|
        ensures IdOf(m[k][j]) in idToCat && idToCat[IdOf(m[k][j])] == k
      {
        ClassItemsMembers(items, idToCat, k);
        var item := m[k][j];
        assert item in ClassItems(items, idToCat, k);
        assert multiset(ClassItems(items, idToCat, k))[item] > 0;
      }
    }

    /** The draw count of class k after a pop from it: one more when the class has items. */
    twostate predicate Drawn(k: nat)
      reads this
    {
      draws == if Get(itemsPerClass, k) == [] then old(draws) else old(draws)[k := Count(old(draws), k) + 1]
    }

    /** Popping an item of class k (train.py:480-483): the d-th draw from a class is
        `CycleItem` of its list, and it belongs to class k. A class without items raises. */
    method Pop(k: nat) returns (item: Option<Item>)
      requires Valid()
      modifies this
      ensures Valid()
      ensures Drawn(k)
      ensures var L := Get(itemsPerClass, k);
        && (L == [] <==> item.None?)
        && (L != [] ==>
              && item == Some(CycleItem(L, Count(old(draws), k)))
              && IdOf(item.value) in idToCat && idToCat[IdOf(item.value)] == k
              && Get(running, k) == RunningFor(L, Count(old(draws), k) + 1))
    {
      var run := Get(running, k);
      ClassDrawStep(running, itemsPerClass, draws, idToCat, k);
      if |run| == 0 {
        // `random.shuffle` of the empty list, then the unshuffled copy
        run := Get(itemsPerClass, k);
      }
      if |run| == 0 {
        running := running[k := run];
        return None;
      }
      item := Some(run[|run| - 1]);
      running := running[k := run[..|run| - 1]];
      draws := draws[k := Count(draws, k) + 1];
    }
  }

  // ---------------------------------------------------------------------------
  // The generator state
  // ---------------------------------------------------------------------------

  class Assembler {
    const batchSize: nat
    const nClasses: nat
    /** `training` after `if predict: training = False`. */
    const training: bool
    const predict: bool
    /** `training and args.class_aware_sampling`. */
    const classAware: bool
    const nWorkers: nat

    var items: seq<Item>
    /** The uniform cursor; never reset between passes. */
    var i: nat
    var itemsDone: nat
    var batchIdx: nat
    /** `id_times_seen`: this generator's own copy of the catalog's seen counts. */
    var seen: map<string, nat>
    var badItems: set<Item>

    const classRounds: ClassRounds
    const classLists: ClassLists

    /** The batch buffer X / y and the shared worker slots. */
    const X: array<Tensor>
    const Y: array<seq<int>>
    const slotX: array<Tensor>
    const slotY: array<seq<int>>

    ghost predicate Valid()
      reads this, classRounds, classLists
    {
      && X.Length == batchSize && Y.Length == batchSize
      && slotX.Length == nWorkers && slotY.Length == nWorkers
      && X != slotX && Y != slotY
      && batchIdx < batchSize
      && (predict ==> !training)
      && (classAware ==> training && classRounds.Valid() && classLists.Valid() && classRounds.n == nClasses)
    }

    /** Setting up the generator and its first pass: `perm` is the first shuffle of the
        items (used only for uniform training). */
    constructor (items: seq<Item>, batchSize: nat, training: bool, predict: bool, classAwareSampling: bool,
                 cpuCount: nat, idToCat: map<string, nat>, seen: map<string, nat>, nClasses: nat,
                 perm: seq<Item>)
      requires batchSize > 0 && cpuCount >= 1
      requires training && !predict && classAwareSampling ==>
                 forall j :: 0 <= j < |items| ==> IdOf(items[j]) in idToCat
      requires training && !predict && !classAwareSampling ==> multiset(perm) == multiset(items)
      ensures Valid() && fresh(X) && fresh(Y) && fresh(slotX) && fresh(slotY)
      ensures this.training == (training && !predict) && this.predict == predict
      ensures this.classAware == (training && !predict && classAwareSampling)
      ensures nWorkers == if predict then 1 else cpuCount - 1
      ensures this.items == if this.training && !this.classAware then perm else items
      ensures i == 0 && itemsDone == 0 && batchIdx == 0 && badItems == {} && this.seen == seen
      ensures classAware ==>
                && classRounds.classes == Range(nClasses) && classRounds.running == []
                && classLists.idToCat == idToCat
                && (forall k :: k in classLists.itemsPerClass ==> classLists.itemsPerClass[k] == ClassItems(items, idToCat, k))
                && classLists.running == classLists.itemsPerClass
    {
      var tr := training && !predict;
      var ca := tr && classAwareSampling;
      this.batchSize := batchSize;
      this.nClasses := nClasses;
      this.training := tr;
      this.predict := predict;
      this.classAware := ca;
      var nw := if predict then 1 else cpuCount - 1;
      this.nWorkers := nw;
      X := new Tensor[batchSize](_ => Zeros);
      Y := new seq<int>[batchSize](_ => []);
      slotX := new Tensor[nw](_ => Zeros);
      slotY := new seq<int>[nw](_ => []);
      this.seen := seen;
      badItems := {};
      i := 0;
      itemsDone := 0;
      batchIdx := 0;
      classRounds := new ClassRounds(nClasses);
      classLists := new ClassLists(if ca then items else [], idToCat);
      this.items := if tr && !ca then perm else items;
    }

    /** The start of a pass (train.py:465-472), allowed once the previous pass has
        dispatched at least `len(items)` jobs: uniform training reshuffles the items in
        place, and the batch position and the pass counter restart at 0, so a partly
        filled batch is abandoned. The uniform cursor `i` carries on. */
    method StartPass(perm: seq<Item>)
      requires Valid() && itemsDone >= |items|
      requires training && !classAware ==> multiset(perm) == multiset(items)
      modifies this
      ensures Valid()
      ensures items == if training && !classAware then perm else old(items)
      ensures multiset(items) == multiset(old(items))
      ensures batchIdx == 0 && itemsDone == 0
      ensures i == old(i) && seen == old(seen) && badItems == old(badItems)
    {
      if training && !classAware {
        items := perm;
      }
      batchIdx := 0;
      itemsDone := 0;
    }

    /** The item the next dispatch chooses (train.py:475-486), as a function of the
        state: uniform sampling takes `items[i % len(items)]`; class-aware sampling pops the
        last class of the queue (the running copy of `classes`, or the new shuffle when it
        is empty) and then the next item of that class's cycle. None stands for the
        IndexError of a pop from an empty list. */
    ghost function NextDraw(classPerm: seq<nat>): Option<Item>
      requires |items| > 0
      reads this, classRounds, classLists
    {
      if !classAware then Some(items[i % |items|])
      else
        var q := Queue(classRounds.running, classPerm);
        if q == [] then None
        else
          var L := Get(classLists.itemsPerClass, q[|q| - 1]);
          if L == [] then None else Some(CycleItem(L, Count(classLists.draws, q[|q| - 1])))
    }

    /** The sampling state after a draw: the uniform cursor advances and nothing else
        moves, or (class-aware) `classes`, its running copy and the rounds move on as
        `ClassRounds.Pop` says and the popped class's draw count rises by one when the
        class has items. With `Valid()`, the draw counts fix every running item list. */
    twostate predicate DrawStep(classPerm: seq<nat>)
      reads this, classRounds, classLists
    {
      && (!classAware ==> i == old(i) + 1 && unchanged(classRounds) && unchanged(classLists))
      && (classAware ==>
            var q := Queue(old(classRounds.running), classPerm);
            && i == old(i)
            && classRounds.Popped(classPerm)
            && (q == [] ==> unchanged(classLists))
            && (q != [] ==> classLists.Drawn(q[|q| - 1])))
    }

    /** Choosing the next item (train.py:475-486): the item `NextDraw` names, with the
        sampling state moved on as `DrawStep` says; a class-aware draw has the class that
        was popped. */
    method Draw(classPerm: seq<nat>) returns (d: Option<Item>)
      requires Valid() && |items| > 0
      requires classAware && classRounds.running == [] ==> multiset(classPerm) == multiset(classRounds.classes)
      modifies this, classRounds, classLists
      ensures Valid()
      ensures items == old(items) && batchIdx == old(batchIdx) && badItems == old(badItems)
      ensures itemsDone == old(itemsDone) && seen == old(seen)
      ensures d == old(NextDraw(classPerm))
      ensures DrawStep(classPerm)
      ensures classAware && d.Some? ==>
                var q := Queue(old(classRounds.running), classPerm);
                q != [] && IdOf(d.value) in classLists.idToCat && classLists.idToCat[IdOf(d.value)] == q[|q| - 1]
    {
      if classAware {
        ghost var next := NextDraw(classPerm);
        d := DrawByClass(classPerm);
        assert d == next;
      } else {
        d := Some(items[i % |items|]);
        i := i + 1;
      }
    }

    /** The class-aware draw (train.py:475-483): pop a class, then pop that class's next
        item. Only the two sampling objects change. */
    method DrawByClass(classPerm: seq<nat>) returns (d: Option<Item>)
      requires classRounds.Valid() && classLists.Valid()
      requires classRounds.running == [] ==> multiset(classPerm) == multiset(classRounds.classes)
      modifies classRounds, classLists
      ensures classRounds.Valid() && classLists.Valid()
      ensures classRounds.Popped(classPerm)
      ensures var q := Queue(old(classRounds.running), classPerm);
        && (q == [] ==> d.None? && unchanged(classLists))
        && (q != [] ==>
              var k := q[|q| - 1];
              var L := Get(classLists.itemsPerClass, k);
              && classLists.Drawn(k)
              && d == (if L == [] then None else Some(CycleItem(L, Count(old(classLists.draws), k))))
              && (d.Some? ==> IdOf(d.value) in classLists.idToCat && classLists.idToCat[IdOf(d.value)] == k))
    {
      var k := classRounds.Pop(classPerm);
      if k.None? {
        return None;
      }
      d := classLists.Pop(k.value);
    }

    /** Dispatching one job (train.py:474-493): the item is the one `NextDraw` names, and
        the sampling state moves on as `DrawStep` says. A pop from an empty list raises.
        Outside predict mode the item's seen count decides `aug` and then rises by one; an
        identifier without a seen count raises `KeyError`. In predict mode nothing else
        can raise. */
    method Dispatch(classPerm: seq<nat>) returns (r: Dispatched)
      requires Valid() && |items| > 0
      requires classAware && classRounds.running == [] ==> multiset(classPerm) == multiset(classRounds.classes)
      modifies this, classRounds, classLists
      ensures Valid()
      ensures items == old(items) && batchIdx == old(batchIdx) && badItems == old(badItems)
      ensures DrawStep(classPerm)
      // when a job is sent, and which exception is raised otherwise
      ensures var drawn := old(NextDraw(classPerm));
        && (r == Raised(PopFromEmptyList) <==> drawn.None?)
        && (drawn.Some? ==> (r.Sent? <==> predict || IdOf(drawn.value) in old(seen)))
        && (drawn.Some? && !r.Sent? ==> r == Raised(UncataloguedId))
        && (r.Sent? ==> drawn == Some(r.job.item))
      ensures r.Sent? ==> itemsDone == old(itemsDone) + 1
                          && r.job.training == training && r.job.predict == predict
      ensures !r.Sent? ==> itemsDone == old(itemsDone) && seen == old(seen)
      // a class-aware job's item has the class that was popped
      ensures classAware && r.Sent? ==>
                var q := Queue(old(classRounds.running), classPerm);
                q != [] && IdOf(r.job.item) in classLists.idToCat
                && classLists.idToCat[IdOf(r.job.item)] == q[|q| - 1]
      // seen-count gating
      ensures r.Sent? && predict ==> !r.job.aug && seen == old(seen)
      ensures r.Sent? && !predict ==>
                var id := IdOf(r.job.item);
                && id in old(seen)
                && (r.job.aug <==> old(seen)[id] != 0)
                && seen == old(seen)[id := old(seen)[id] + 1]
    {
      var drawn := Draw(classPerm);
      if drawn.None? {
        return Raised(PopFromEmptyList);
      }
      var item := drawn.value;
      var aug: bool;
      if !predict {
        var id := IdOf(item);
        if id !in seen {
          return Raised(UncataloguedId);
        }
        aug := seen[id] != 0;
        seen := seen[id := seen[id] + 1];
      } else {
        aug := false;
      }
      itemsDone := itemsDone + 1;
      r := Sent(Job(item, aug, training, predict));
    }

    /** A worker (train.py:412-426): it processes the job and, for a good example, writes
        image and label into its own slot. A raising `process_item` ends the worker and
        no result is produced. */
    method Work(cfg: Config, w: nat, job: Job, fast: Decoded, pil: Decoded, draw: real)
      returns (r: Option<WorkerResult>)
      requires Valid() && w < nWorkers
      modifies slotX, slotY
      ensures var o := ProcessItem(cfg, job.item, job.aug, job.training, job.predict, fast, pil, draw);
        && (o.Crash? <==> r.None?)
        && (o.Rejected? ==> r == Some(WorkerResult(w, false, job.item)) && slotX[..] == old(slotX[..]) && slotY[..] == old(slotY[..]))
        && (o.Ready? ==> r == Some(WorkerResult(w, true, job.item))
                         && slotX[..] == old(slotX[..])[w := o.image]
                         && slotY[..] == old(slotY[..])[w := o.classVector])
    {
      var o := ProcessItem(cfg, job.item, job.aug, job.training, job.predict, fast, pil, draw);
      match o
      case Crash =>
        r := None;
      case Rejected =>
        r := Some(WorkerResult(w, false, job.item));
      case Ready(image, v) =>
        slotX[w] := image;
        slotY[w] := v;
        r := Some(WorkerResult(w, true, job.item));
    }

    /** Collecting one result (train.py:496-518). A good result copies slot `workerId`
        into row `batch_idx` of X and y; a bad one zeroes that row of X in predict mode
        (y untouched) and is recorded in `bad_items`, which is never cleared. A full
        buffer is yielded and the position returns to 0. */
    method Collect(res: WorkerResult) returns (yielded: Option<Batch>)
      requires Valid() && res.workerId < nWorkers
      modifies this, X, Y
      ensures Valid()
      ensures items == old(items) && i == old(i) && itemsDone == old(itemsDone) && seen == old(seen)
      ensures badItems == if res.good then old(badItems) else old(badItems) + {res.item}
      ensures var advance := res.good || predict;
        && (res.good ==>
              && X[..] == old(X[..])[old(batchIdx) := slotX[res.workerId]]
              && Y[..] == old(Y[..])[old(batchIdx) := slotY[res.workerId]])
        && (!res.good && predict ==> X[..] == old(X[..])[old(batchIdx) := Zeros] && Y[..] == old(Y[..]))
        && (!advance ==> X[..] == old(X[..]) && Y[..] == old(Y[..]))
        && (yielded.Some? <==> advance && old(batchIdx) + 1 == batchSize)
        && batchIdx == (if !advance then old(batchIdx) else if old(batchIdx) + 1 == batchSize then 0 else old(batchIdx) + 1)
        && (yielded.Some? ==> yielded.value == if predict then PredictionBatch(X[..]) else TrainingBatch(X[..], Y[..]))
    {
      if res.good {
        X[batchIdx] := slotX[res.workerId];
        Y[batchIdx] := slotY[res.workerId];
        batchIdx := batchIdx + 1;
      } else {
        if predict {
          X[batchIdx] := Zeros;
          batchIdx := batchIdx + 1;
        }
        badItems := badItems + {res.item};
      }
      if batchIdx == batchSize {
        if !predict {
          yielded := Some(TrainingBatch(X[..], Y[..]));
        } else {
          yielded := Some(PredictionBatch(X[..]));
        }
        batchIdx := 0;
      } else {
        yielded := None;
      }
    }
  }
}
