/** Turning one item into a training example (train.py:236-271, 344-410): decoding with
    two decoders, the shape checks, augmentation or resizing, normalisation and the label.
    A decoder is represented by its outcome on the item's path: failure, or an array of
    some shape. Pixel values are not modelled. */
module Processing {
  import opened Items

  // ---------------------------------------------------------------------------
  // The classifier -> preprocessing module lookup (train.py:239-271)
  // ---------------------------------------------------------------------------

  /** `classifier_to_module`: which normaliser each supported backbone uses. */
  const ClassifierToModule: map<string, Normalizer> := map[
    "NASNetLarge" := NasNet,
    "NASNetMobile" := NasNet,
    "DenseNet121" := DenseNet,
    "DenseNet161" := DenseNet,
    "DenseNet201" := DenseNet,
    "InceptionResNetV2" := InceptionResNetV2,
    "InceptionV3" := InceptionV3,
    "MobileNet" := MobileNet,
    "ResNet50" := ResNet50,
    "VGG16" := Vgg16,
    "VGG19" := Vgg19,
    "Xception" := Xception,
    "SEDenseNetImageNet121" := SeDenseNet,
    "SEDenseNetImageNet161" := SeDenseNet,
    "SEDenseNetImageNet169" := SeDenseNet,
    "SEDenseNetImageNet264" := SeDenseNet,
    "SEInceptionResNetV2" := SeInceptionResNetV2,
    "SEMobileNet" := SeMobileNets,
    "SEResNet50" := SeResNet,
    "SEResNet101" := SeResNet,
    "SEResNet154" := SeResNet,
    "SEInceptionV3" := SeInceptionV3,
    "SEResNext" := SeResNet,
    "SEResNextImageNet" := SeResNet
  ]

  /** The normaliser `preprocess_image` applies for a classifier name. */
  function ModuleFor(classifier: string): Normalizer
  {
    if classifier in ClassifierToModule then ClassifierToModule[classifier] else Xception
  }

  /** The Xception normaliser is used exactly for the Xception backbone and for every name
      the table does not know; every listed name gets its own table entry. */
  lemma ModuleForXception(classifier: string)
    ensures ModuleFor(classifier) == Xception <==>
              classifier == "Xception" || classifier !in ClassifierToModule
    ensures classifier in ClassifierToModule ==> ModuleFor(classifier) == ClassifierToModule[classifier]
  {
  }

  // ---------------------------------------------------------------------------
  // process_item (train.py:344-410)
  // ---------------------------------------------------------------------------

  /** What a decoder makes of a path: an exception, or an array of the given shape. */
  datatype Decoded = Failed | Array(shape: seq<nat>)

  /** The run-time parameters `process_item` reads from the command line and the catalog. */
  datatype Config = Config(
    cropSize: nat,             // CROP_SIZE
    augmentationProbability: real,
    classifier: string,
    idToCat: map<string, nat>, // id_to_cat
    nClasses: nat)             // N_CLASSES

  /** The result of `process_item`: `(None, None, item)` for a rejected item, an image and a
      label vector for a good one, or an exception (`get_class` on an uncatalogued
      identifier, or a class index outside the one-hot range) that ends the worker. */
  datatype Outcome = Rejected | Ready(image: Tensor, classVector: seq<int>) | Crash

  /** The shape checks, as the code performs them: the fast decoder first, the PIL decoder
      as a fallback and as a reload for an image that is not three-dimensional; a 2-D image
      is stacked to three channels. Returns the accepted shape, or None to reject. */
  function CheckedShape(fast: Decoded, pil: Decoded): Option<seq<nat>>
  {
    // first load: fast decoder, else PIL
    var first := if fast.Array? then fast else pil;
    var loadedPil := !fast.Array?;
    if first.Failed? then None
    else
      var img := first.shape;
      // not 3-D: reload with PIL unless already loaded, then promote grayscale
      var img' :=
        if |img| != 3 then
          if !loadedPil then (if pil.Failed? then None else Some(pil.shape)) else Some(img)
        else Some(img);
      if img'.None? then None
      else
        var s := if |img'.value| == 2 then img'.value + [3] else img'.value;
        if |s| != 3 then None
        // the channel check rejects whatever a reload would give
        else if s[2] != 3 then None
        else Some(s)
  }

  /** The one image the checks end up judging: the fast decoder's when it is
      three-dimensional, otherwise the PIL decoder's. */
  function JudgedImage(fast: Decoded, pil: Decoded): Decoded
  {
    if fast.Array? && |fast.shape| == 3 then fast else pil
  }

  /** An image shape the pipeline accepts: grayscale, or three-dimensional with exactly
      three channels. */
  predicate Usable(s: seq<nat>)
  {
    |s| == 2 || (|s| == 3 && s[2] == 3)
  }

  /** The stepwise checks accept exactly the items whose judged image is usable, and an
      accepted image always has three dimensions and three channels (a grayscale image is
      stacked). Rejection therefore happens exactly when both decoders fail, when the
      judged image is neither 2-D nor 3-D, or when it has a channel count other than 3 (a
      PIL reload never rescues a fast 3-D image with the wrong channel count). */
  lemma CheckedShapeIff(fast: Decoded, pil: Decoded)
    ensures var j := JudgedImage(fast, pil);
      && (CheckedShape(fast, pil).Some? <==> j.Array? && Usable(j.shape))
      && (CheckedShape(fast, pil).Some? ==>
            CheckedShape(fast, pil).value == (if |j.shape| == 2 then j.shape + [3] else j.shape))
  {
  }

  /** `get_class`: the class of the item's identifier, if catalogued. */
  function ClassOf(cfg: Config, item: Item): Option<nat>
  {
    if IdOf(item) in cfg.idToCat then Some(cfg.idToCat[IdOf(item)]) else None
  }

  /** `process_item(item, aug, training, predict)`. `draw` is the value of
      `np.random.random()`; it is consulted only when training with augmentation. */
  function ProcessItem(cfg: Config, item: Item, aug: bool, training: bool, predict: bool,
                       fast: Decoded, pil: Decoded, draw: real): Outcome
  {
    var shape := CheckedShape(fast, pil);
    if shape.None? then Rejected
    else
      var augmented := training && aug && draw < cfg.augmentationProbability;
      // augmentation ends with a rescale to the crop size, as the resize does
      var image := Pixels(item, augmented, ModuleFor(cfg.classifier), [cfg.cropSize, cfg.cropSize, 3]);
      if predict then Ready(image, ZeroLabel(cfg.nClasses))
      else
        var k := ClassOf(cfg, item);
        if k.None? || k.value >= cfg.nClasses then Crash
        else Ready(image, OneHot(k.value, cfg.nClasses))
  }

  /** An item is rejected exactly when its judged image is unusable; otherwise it yields a
      crop-size RGB image normalised for the configured classifier, unless labelling
      raises, which happens exactly outside predict mode for an uncatalogued identifier or
      a class index of at least N_CLASSES. */
  lemma ProcessItemOutcome(cfg: Config, item: Item, aug: bool, training: bool, predict: bool,
                           fast: Decoded, pil: Decoded, draw: real)
    ensures var o := ProcessItem(cfg, item, aug, training, predict, fast, pil, draw);
      var j := JudgedImage(fast, pil);
      && (o.Rejected? <==> !(j.Array? && Usable(j.shape)))
      && (o.Crash? <==> j.Array? && Usable(j.shape) && !predict &&
                         (IdOf(item) !in cfg.idToCat || cfg.idToCat[IdOf(item)] >= cfg.nClasses))
      && (o.Ready? ==> o.image.Pixels? && o.image.item == item && o.image.shape == [cfg.cropSize, cfg.cropSize, 3]
                       && o.image.normalizer == ModuleFor(cfg.classifier))
  {
    CheckedShapeIff(fast, pil);
  }

  /** Augmentation happens exactly when training with augmentation enabled and the draw
      falls below the augmentation probability; validation and prediction never augment. */
  lemma AugmentationGate(cfg: Config, item: Item, aug: bool, training: bool, predict: bool,
                         fast: Decoded, pil: Decoded, draw: real)
    requires ProcessItem(cfg, item, aug, training, predict, fast, pil, draw).Ready?
    ensures ProcessItem(cfg, item, aug, training, predict, fast, pil, draw).image.augmented <==>
              training && aug && draw < cfg.augmentationProbability
  {
  }

  /** In predict mode the label is the all-zero vector of length N_CLASSES, which names no
      class; otherwise it is the one-hot vector of the item's class: its single 1 sits at
      `id_to_cat` of the item's identifier. */
  lemma LabelOfReadyItem(cfg: Config, item: Item, aug: bool, training: bool, predict: bool,
                         fast: Decoded, pil: Decoded, draw: real)
    requires ProcessItem(cfg, item, aug, training, predict, fast, pil, draw).Ready?
    ensures var v := ProcessItem(cfg, item, aug, training, predict, fast, pil, draw).classVector;
      && |v| == cfg.nClasses
      && (predict ==> Sum(v) == 0 && forall j :: 0 <= j < |v| ==> v[j] == 0)
      && (!predict ==>
            && IdOf(item) in cfg.idToCat && Sum(v) == 1
            && (var k := cfg.idToCat[IdOf(item)];
                k < |v| && v[k] == 1 && forall j :: 0 <= j < |v| && j != k ==> v[j] == 0))
  {
    if predict {
      ZeroLabelSum(cfg.nClasses);
    } else {
      OneHotSum(cfg.idToCat[IdOf(item)], cfg.nClasses);
    }
  }

  /** The PIL decoder is never consulted when the fast decoder yields a 3-D RGB image:
      whatever PIL would make of the path, the outcome is the same. */
  lemma FastDecodeSuffices(cfg: Config, item: Item, aug: bool, training: bool, predict: bool,
                           s: seq<nat>, pil1: Decoded, pil2: Decoded, draw: real)
    requires |s| == 3 && s[2] == 3
    ensures ProcessItem(cfg, item, aug, training, predict, Array(s), pil1, draw) ==
            ProcessItem(cfg, item, aug, training, predict, Array(s), pil2, draw)
  {
  }
}
