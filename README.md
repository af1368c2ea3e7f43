# COCO maxitrain/minival split, modelled in Dafny

This project models the split builder of the Visual Wake Words tooling
(`create_maxitrain_minival` in `scripts/create_coco_train_minival_split.py`).
The builder takes the decoded COCO 2014 train and val annotation bundles and the
list of held-out image ids, and builds two new bundles:

- **maxitrain**: every train image and annotation, followed by every val image
  whose `id`, and every val annotation whose `image_id`, is not held out;
- **minival**: the val images and annotations whose key is held out.

Both bundles carry the train bundle's `info`, `licenses` and `categories`.

Files:

- `coco.dfy` (module `Coco`): the records. `Image` keeps its `id`, `Annotation`
  keeps its `image_id`, and both carry an opaque payload of type `J`.
  `AnnotationSet` has the five top-level keys that the builder reads and writes.
- `partition.dfy` (module `Partition`): routing a list of records by whether each
  record's key is in the held-out list.
  - `Select` is the order-preserving filter that the loops compute.
  - `Partitions` is a declarative description of a correct routing: both outputs
    keep the input order, each output takes only records with the right routing
    outcome, and together they hold every input record exactly once (as multisets).
  - `PartitionsIffSelect` proves that a pair of outputs satisfies `Partitions`
    if and only if it is the pair of filters.
- `split.dfy` (module `MinivalSplit`): the builder and its properties.
  - `CreateMaxitrainMinival` is a method with the source's two loops.
    Its sequence accumulators mirror the four Python lists.
  - `IsMaxitrainMinival` states what a correct split is. The method is proved to
    meet it, and the lemmas derive the split's promised properties from it.

The held-out ids are a `seq<int>`. Routing uses `x in ids`, which is membership
in a list, as in the source. The source keeps them in a Python list rather than a
set, so duplicate ids make no difference.

## Model

| member | source | states |
|---|---|---|
| `MinivalSplit.CreateMaxitrainMinival` | scripts/create_coco_train_minival_split.py:39-93 | maxitrain's images are the train images followed by the val images whose id is not held out, and minival's images are the val images whose id is held out, both in input order. The same holds for annotations keyed by their own `image_id`. Both bundles carry the train bundle's info, licenses and categories. The result satisfies `IsMaxitrainMinival` |
| `MinivalSplit.RoutedAfterTrain` | scripts/create_coco_train_minival_split.py:59-73 | for one record list, in both directions: the train records open the maxitrain list and the rest of it with the minival list is a correct routing of the val records iff the maxitrain list is train + complementary filter and the minival list is the filter |
| `MinivalSplit.SplitIsUnique` | scripts/create_coco_train_minival_split.py:54-93 | the description of a correct split determines both output bundles completely |
| `MinivalSplit.ValRecordsPlacedOnce` | scripts/create_coco_train_minival_split.py:60-73 | every val image is in minival iff its id is held out, and among maxitrain's val-derived images iff it is not; likewise for annotations by `image_id`; so each lands in exactly one output |
| `MinivalSplit.MinivalOnlyFromVal` | scripts/create_coco_train_minival_split.py:55-71 | every minival image and annotation comes from the val bundle and has a held-out key: minival starts empty and only the val loops append to it |
| `MinivalSplit.SplitCountsAddUp` | scripts/create_coco_train_minival_split.py:54-73 | `|maxitrain.images| + |minival.images| == |train.images| + |val.images|`, and the same for annotations |
| `MinivalSplit.AnnotationsIgnoreImages` | scripts/create_coco_train_minival_split.py:67-73 | the annotation lists of the outputs depend only on the input annotations and the held-out ids, not on any image |
| `MinivalSplit.AnnotationMaySeparateFromImage` | scripts/create_coco_train_minival_split.py:67-73 | placement is never cross-checked: a val annotation referring to a held-out train image goes to minival while its image stays in maxitrain and minival has no image |
| `Partition.Select` | scripts/create_coco_train_minival_split.py:60-65 | the filter each loop computes; it is never longer than its input |
| `Partition.SelectAppend` | scripts/create_coco_train_minival_split.py:60-73 | filtering distributes over concatenation, so records can be routed one at a time in input order |
| `Partition.SelectPrefixStep` | scripts/create_coco_train_minival_split.py:62-65 | one loop iteration: processing the next record appends it to the held-out filter if its key is in the list, and to the complementary filter otherwise |
| `Partition.SelectMembership` | scripts/create_coco_train_minival_split.py:61-65 | a record is in a filter iff it is in the input and its key's membership in the held-out list matches |
| `Partition.SelectIsSubsequence` | scripts/create_coco_train_minival_split.py:60-65 | each filter is a subsequence of its input (order preserved) |
| `Partition.SelectMultiset` | scripts/create_coco_train_minival_split.py:60-65 | the two filters together hold every input record exactly as often as the input |
| `Partition.SelectPartitions` | scripts/create_coco_train_minival_split.py:60-73 | the pair of filters is a correct routing in the sense of `Partitions` |
| `Partition.PartitionsAreSelect` | scripts/create_coco_train_minival_split.py:60-73 | a correct routing is unique: it is exactly the pair of filters |
| `Partition.PartitionsIffSelect` | scripts/create_coco_train_minival_split.py:60-73 | both directions: a pair of outputs is a correct routing iff it is the pair of filters |
| `Partition.PartitionsPlacement` | scripts/create_coco_train_minival_split.py:62-65 | in a correct routing a record is in the held-out output iff it is an input record with a held-out key, and in the other iff it is an input record with a key not held out |
| `Partition.PartitionsCount` | scripts/create_coco_train_minival_split.py:60-73 | in a correct routing the two outputs together are as long as the input |

## Left out

- JSON decoding and encoding and all file access (lines 36-37 and 75-93). The
  inputs are already-decoded `AnnotationSet` values, and the outputs are returned
  instead of written.
- Loading the held-out ids from `mscoco_minival_ids.txt` (lines 45-47): file I/O and
  Python's `int` parser. The ids are a `seq<int>` parameter.
- Path handling (the `os.path` calls at lines 32-35, 43-44 and 97-99), output-directory
  creation (lines 101-102) and the command line (lines 106-117).
- Missing keys: the source raises `KeyError` when the train bundle lacks `info`,
  `categories`, `licenses`, `images` or `annotations` (lines 39-41, 49, 51), when the
  val bundle lacks `images` or `annotations` (lines 50, 52), when a val image lacks
  `id` (line 61) or when a val annotation lacks `image_id` (line 69). Nothing else is
  looked up. The model's bundles and records always have these fields, so this error
  path is not modelled.
- Record shape: `Image` and `Annotation` carry an integer key even when they come
  from the train bundle, although the source never inspects
  train records and passes them through whatever their shape. The model therefore
  does not cover train records without an `id` or `image_id`, or with a key that is
  not an integer; the val bundle's `info`, `licenses` and `categories` are likewise
  required to be present in the model although the source never reads them.
- Other top-level keys of the input files: the source writes only the five keys
  above, so the model keeps only those and drops the rest, as the source does.
- Record contents beyond `id` and `image_id` are the opaque payload `J`. The model
  treats ids as mathematical integers, so Python's cross-type equality (for example
  a float id `3.0` matching a held-out `3`) is not modelled.
- Aliasing: the Python output lists share their dict objects with the input lists.
  Nothing mutates them, so the model uses values.
- The val bundle's `info`, `licenses` and `categories` are read by nothing in the
  source. The model accepts them and `IsMaxitrainMinival` never mentions them.
