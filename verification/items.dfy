/** Values shared by every part of the pipeline: items, image tensors and label vectors.
    Images are opaque: a tensor records which item it came from, whether it was augmented
    and which normaliser was applied, and its shape. */
module Items {

  datatype Option<+T> = None | Some(value: T)

  /** Reading a `defaultdict(list)`: a missing key reads as the empty list. */
  function Get<K, V>(m: map<K, seq<V>>, k: K): seq<V>
  {
    if k in m then m[k] else []
  }

  /** Directory the training images live in. */
  const TrainDir: string := "train-dl"

  /** An entry of an item list: a path to an image file `<dir>/<id>.jpg`, or a bare
      identifier string (what `ids_to_dup` appends to the training list). */
  datatype Item = File(dir: string, id: string) | BareId(id: string)

  /** The path the decoders are asked to open for an item. */
  function PathOf(item: Item): string
  {
    match item
    case File(dir, id) => dir + "/" + id + ".jpg"
    case BareId(id) => id
  }

  /** The item's identifier: the file name without directory and extension (`get_id`).
      Identifiers contain neither '/' nor '.', so a bare identifier is its own stem. */
  function IdOf(item: Item): string
  {
    item.id
  }

  /** The normalisation a backbone family expects (`preprocess_input` of that module). */
  datatype Normalizer =
    | NasNet | DenseNet | InceptionResNetV2 | InceptionV3 | MobileNet | ResNet50
    | Vgg16 | Vgg19 | Xception | SeDenseNet | SeInceptionResNetV2 | SeMobileNets
    | SeResNet | SeInceptionV3

  /** An image tensor of shape `shape`. `Zeros` is the all-zero placeholder image. */
  datatype Tensor =
    | Zeros
    | Pixels(item: Item, augmented: bool, normalizer: Normalizer, shape: seq<nat>)

  /** A label vector of length n that is 1 at position k and 0 elsewhere (`to_categorical`). */
  function OneHot(k: nat, n: nat): (v: seq<int>)
    requires k < n
    ensures |v| == n && v[k] == 1
    ensures forall j :: 0 <= j < n && j != k ==> v[j] == 0
  {
    seq(n, j requires 0 <= j < n => if j == k then 1 else 0)
  }

  /** The all-zero label vector of length n (`np.zeros(N_CLASSES)`). */
  function ZeroLabel(n: nat): (v: seq<int>)
    ensures |v| == n && forall j :: 0 <= j < n ==> v[j] == 0
  {
    seq(n, _ => 0)
  }

  /** Sum of the entries of a label vector. */
  function Sum(v: seq<int>): int
  {
    if v == [] then 0 else Sum(v[..|v| - 1]) + v[|v| - 1]
  }

  /** A one-hot vector has exactly one non-zero entry, it is 1 and sits at k: the class
      can be read back from the label. */
  lemma {:induction false} OneHotSum(k: nat, n: nat)
    requires k < n
    ensures Sum(OneHot(k, n)) == 1
  {
    OneHotPrefixSum(k, n, n);
    assert OneHot(k, n)[..n] == OneHot(k, n);
  }

  lemma {:induction false} OneHotPrefixSum(k: nat, n: nat, m: nat)
    requires k < n && m <= n
    ensures Sum(OneHot(k, n)[..m]) == if k < m then 1 else 0
  {
    var v := OneHot(k, n);
    if m > 0 {
      OneHotPrefixSum(k, n, m - 1);
      assert v[..m][..m - 1] == v[..m - 1];
    }
  }

  /** The zero label sums to zero: it names no class. */
  lemma {:induction false} ZeroLabelSum(n: nat)
    ensures Sum(ZeroLabel(n)) == 0
  {
    if n > 0 {
      ZeroLabelSum(n - 1);
      assert ZeroLabel(n)[..n - 1] == ZeroLabel(n - 1);
    }
  }
}
