# Cutout augmentation and CityPersons / Cityscapes to COCO conversion

This project models two parts of a pedestrian-detection toolkit built on
detectron2.

**Cutout augmentation.** `CutoutTransform` blacks out rectangles of a training
image. For the ground-truth boxes under those rectangles, it shrinks each box to
the part that stays visible, or removes the box when less than a tenth of it
remains. The augmentations `Cutout` and `ObjectAwareCutout` decide at random
whether to cut and which rectangles to cut:

- `Cutout` places rectangles anywhere in the image.
- `ObjectAwareCutout` places them around each ground-truth box.

An older single-file version of the augmentation has different defaults and an
`ObjectAwareCutout` that is not implemented.

**Dataset conversion.** Two converters turn per-image annotations into the
flat COCO `images` and `annotations` lists:

- CityPersons files are checked by name. Only the four person labels are kept,
  and only images that keep an object are listed.
- Cityscapes instances must be in absolute XYXY form. Their boxes are rewritten
  as XYWH.

Modules:

- `Wrappers`: `Option` and `Result`.
- `CutoutTransforms`:
  - `apply_image` is the method `ApplyImage`. It works on an `array2<int>` and
    is specified by the function `Filled` on the image's pixels, using numpy's
    slice semantics.
  - `apply_box` is the method `ApplyBox`, specified by `ClipBox`.
  - `apply_coords` and `apply_segmentation` are identities.
- `CutoutAugmentations`:
  - the constructors' validation (`NewCutoutConfig`);
  - `Cutout.get_transform`;
  - `ObjectAwareCutout._get_transform_rects` and `get_transform`.

  Each method has a loop and is proved equal to a specification function.
- `LegacyAugmentation`: the older file's defaults and its `ObjectAwareCutout`.
- `CityPersonsToCoco`: the record-building loop of `citypersons2coco_detection`.
  The specification functions and lemmas take a `Dataset`: the label-to-id
  lookup and the rule that turns an annotation file's name into its image's
  name. They hold for any such pair. The converter uses `CityPersons`, the
  four-label table and the suffix replacement, and `CategoryIdFromTable` and
  `ImageFileName` state what those two do.
- `CityscapesToCoco`: the record-building loop of `cityscapes2coco.py`.

Random draws are inputs. A `SampleDraws` holds the values one call would have
drawn:

- the uniform `u` that is compared with the probability;
- the count;
- one `RectDraw` per rectangle, holding its size and its anchor.

`Drawable` says which values numpy can produce. numpy's `randint(lo, hi)` raises
`ValueError` when `lo >= hi`; the model returns that as `Err(EmptyRange)`. An
`assert` that fails is modelled as an `Err` value.

Where the code departs from the toolkit's documented intent, the model follows
the code:

- The constructors check only that the probability and the area ratios are
  fractions. A `num` or aspect range with `lo > hi` is accepted, and so is an
  aspect range that reaches 0 or below. A `num` range with `lo > hi` fails later,
  at sampling time, in `randint`. A non-positive aspect draw also fails at
  sampling time, in the sizing step (`ZeroDivisionError`, or `ValueError` from
  `int` of a NaN). The model does not capture that failure, because each
  rectangle's size is an input (see "Left out").
- An `ObjectAwareCutout` rectangle is clamped to the image one side at a time.
  For a box left of the image, the rectangle's end coordinate can be negative,
  and numpy then counts it from the far edge (`ObjectRectMayEndBeforeImage`).
- The older file's `CutoutTransform` has no `apply_box`, so it inherits the base
  class's behaviour. Otherwise its `CutoutTransform` and `Cutout` are the same
  code as the newer file's and are modelled once, by `CutoutTransforms` and
  `CutoutAugmentations`.
- CityPersons annotation ids start at 0. Cityscapes annotation ids start at 1,
  because the counter is incremented before it is used.

## Model

| member | source | states |
|---|---|---|
| CutoutTransforms.ZeroRect | tools/custom_augmentation/cutout.py:22-24 | after `img[y0:y1, x0:x1] = 0`, a pixel is 0 exactly when the rectangle's numpy-normalised slices select it; every other pixel keeps its old value |
| CutoutTransforms.ApplyImage | tools/custom_augmentation/cutout.py:20-25 | returns a fresh copy of the same height and width whose pixels are `Filled(image, rects)`: a pixel is 0 when some rectangle selects it and keeps its value otherwise; the input image is not changed |
| CutoutTransforms.CoveredSnoc | tools/custom_augmentation/cutout.py:22-24 | after one more rectangle, a pixel is covered exactly when it was covered before or the new rectangle covers it |
| CutoutTransforms.FilledNothing | tools/custom_augmentation/cutout.py:20-25 | an empty rectangle list leaves the image unchanged |
| CutoutTransforms.FilledIdempotent | tools/custom_augmentation/cutout.py:20-25 | applying the same cutout twice gives the same image as applying it once |
| CutoutTransforms.FilledConcat | tools/custom_augmentation/cutout.py:20-25 | cutting with one list and then another equals cutting with their concatenation, and the order of the rectangles does not matter |
| CutoutTransforms.CoveredConcat | tools/custom_augmentation/cutout.py:22-24 | a pixel is covered by a concatenation exactly when one of the two parts covers it |
| CutoutTransforms.InBoundsSliceIsRect | tools/custom_augmentation/cutout.py:24 | for a rectangle inside the image, the slice selects exactly the pixels with `y0 <= y < y1` and `x0 <= x < x1` |
| CutoutTransforms.NegativeEndCountsFromEdge | tools/custom_augmentation/cutout.py:24 | a negative end coordinate counts from the far edge: `x1 = -1` on a 5-wide image still blacks out column 3 |
| CutoutTransforms.ClipBox | tools/custom_augmentation/cutout.py:36-60 | one box's result is either the collapsed box `[bx0, by0, bx0, by0]` or keeps at least a tenth of the box's area; for a well-formed box it lies inside the box |
| CutoutTransforms.MatchInside | tools/custom_augmentation/cutout.py:40-56 | each of the five cases leaves a part of a well-formed box: the collapsed box, or a strip with positive height or width |
| CutoutTransforms.FirstMatchInside | tools/custom_augmentation/cutout.py:39-56 | the first matching remainder of a well-formed box lies inside the box |
| CutoutTransforms.FirstMatchIsEarliest | tools/custom_augmentation/cutout.py:39-56 | the remainder used is that of a matching rectangle with no matching rectangle before it, in both directions (the `break`) |
| CutoutTransforms.LaterRectsIgnored | tools/custom_augmentation/cutout.py:39-56 | once a rectangle has matched, rectangles appended after it change neither the remainder nor the result |
| CutoutTransforms.NoMatchKeepsBox | tools/custom_augmentation/cutout.py:36-60 | when no rectangle matches, the box is returned unchanged exactly when its area is not negative |
| CutoutTransforms.FullCoverRemoves | tools/custom_augmentation/cutout.py:40-43 | a first rectangle that covers the box in both directions removes it |
| CutoutTransforms.ApplyBox | tools/custom_augmentation/cutout.py:33-62 | returns one box per input box, in order, each equal to `ClipBox` of that box |
| CutoutTransforms.EmptyCutoutKeepsBoxes | tools/custom_augmentation/cutout.py:33-62 | with no rectangles, every box of non-negative area is returned unchanged |
| CutoutTransforms.ApplyCoords | tools/custom_augmentation/cutout.py:27-28 | coordinates are returned unchanged |
| CutoutTransforms.ApplySegmentation | tools/custom_augmentation/cutout.py:30-31 | segmentations are returned unchanged |
| CutoutAugmentations.NewCutoutConfig | tools/custom_augmentation/cutout.py:69-90 | fails with the probability error exactly when `prob` is outside [0, 1], and with the ratio error exactly when `prob` is valid and a `size_pct` bound is outside [0, 1]; on success it stores the arguments normalised to pairs, with each scale equal to its range's width |
| CutoutAugmentations.ConfigRoundTrip | tools/custom_augmentation/cutout.py:85-90 | giving the stored pairs back to the constructor rebuilds the same configuration |
| CutoutAugmentations.CutoutGetTransform | tools/custom_augmentation/cutout.py:92-113 | the loop returns exactly `CutoutSample` of the draws |
| CutoutAugmentations.CutoutSampleSound | tools/custom_augmentation/cutout.py:92-113 | returns no-op exactly when `u >= prob`; fails with `randint`'s error exactly when it fires with an empty `num` range, or with at least one rectangle on an image of zero height or width (failures of the sizing step are not modelled); otherwise draws `max(n, 0)` rectangles (between `num[0]` and `num[1]` when `num[0] >= 0`), each inside the image |
| CutoutAugmentations.ObjectGetTransformRects | tools/custom_augmentation/cutout.py:143-165 | the loop returns exactly `ObjectSample`: no rectangles when `u >= prob`, an error for an empty range, otherwise one centred and clamped rectangle per draw |
| CutoutAugmentations.DrawsFitPrefix | tools/custom_augmentation/cutout.py:171-172 | the draws for a prefix of the boxes still fit those boxes |
| CutoutAugmentations.AllObjectRectsStep | tools/custom_augmentation/cutout.py:171-172 | one more box either fails with its own error or extends the rectangles so far with its own rectangles (`rects.extend`) |
| CutoutAugmentations.ObjectGetTransform | tools/custom_augmentation/cutout.py:167-176 | the loop over boxes returns exactly `ObjectTransform`: the first error, no-op when no rectangle was drawn, otherwise a cutout over all the rectangles in box order |
| CutoutAugmentations.AllObjectRectsErrSticks | tools/custom_augmentation/cutout.py:171-172 | once a box's sampling fails, the later boxes do not change the outcome |
| CutoutAugmentations.ObjectRectsClamped | tools/custom_augmentation/cutout.py:158-161 | every object-aware rectangle starts at a non-negative coordinate and ends at most at the image's width and height |
| CutoutAugmentations.ObjectNoOpIff | tools/custom_augmentation/cutout.py:173-176 | `get_transform` is a no-op exactly when every box's sampling succeeded with no rectangle |
| CutoutAugmentations.AllObjectRectsOkPrefix | tools/custom_augmentation/cutout.py:171-172 | a successful result is the prefix's successful result followed by the last box's rectangles |
| CutoutAugmentations.ObjectRectMayEndBeforeImage | tools/custom_augmentation/cutout.py:156-161 | for a box left of the image, the clamped rectangle ends at a negative coordinate, and the fill then reaches pixels far from the box |
| CutoutAugmentations.DefaultCutoutAccepted | tools/custom_augmentation/cutout.py:69-90 | the default `Cutout()` is accepted with ranges (0.02, 0.05), (0.33, 3) and (5, 10) |
| CutoutAugmentations.DefaultCutoutFiveToTen | tools/custom_augmentation/cutout.py:69-113 | the default `Cutout` that fires draws 5 to 10 rectangles, and fails exactly when it fires on an image of zero height or width |
| LegacyAugmentation.LegacyDefaultCutoutAccepted | tools/custom_augmentation.py:38-59 | the older default `Cutout()` is accepted with the area range (0.02, 0.2) and `num = (1, 1)` |
| LegacyAugmentation.LegacyDefaultCutoutOneRect | tools/custom_augmentation.py:38-82 | the older default `Cutout` that fires draws exactly one rectangle, and that rectangle lies inside the image |
| LegacyAugmentation.NewLegacyObjectAwareCutout | tools/custom_augmentation.py:88-101 | fails on a probability outside [0, 1] first, then on a scalar size ratio outside [0, 1]; otherwise stores the three arguments as given |
| LegacyAugmentation.LegacyObjectGetTransform | tools/custom_augmentation.py:103-104 | always fails with `NotImplementedError` |
| CityPersonsToCoco.CategoryIdFromTable | tools/citypersons2coco.py:5-14 | looking a label up in the category table (`valid_cats`, then `cat2id`) gives "pedestrian", "rider", "sitting person" and "person (other)" the ids 1 to 4, and no id to any other label |
| CityPersonsToCoco.ReplaceAbsent | tools/citypersons2coco.py:37 | `replace` leaves a name without the suffix unchanged |
| CityPersonsToCoco.ReplaceAtEnd | tools/citypersons2coco.py:37 | `replace` on a name that ends in the pattern, and holds it nowhere else, substitutes exactly that last occurrence |
| CityPersonsToCoco.ImageFileName | tools/citypersons2coco.py:36-41 | the file `<stem>gtBboxCityPersons.json` of a city is listed as `<city>/<stem>leftImg8bit.png` |
| CityPersonsToCoco.HasPersonSnoc | tools/citypersons2coco.py:43-47 | a file holds a person exactly when its earlier objects do or its last object has a kept label |
| CityPersonsToCoco.ObjectAnnotations | tools/citypersons2coco.py:44-60 | one file yields no more annotations than it has objects |
| CityPersonsToCoco.ObjectAnnotationIds | tools/citypersons2coco.py:44-60 | a file's annotations have consecutive ids starting at the counter, and all carry the file's image id |
| CityPersonsToCoco.AnnotationsPerKeptObject | tools/citypersons2coco.py:44-60 | a file yields exactly as many annotations as it has objects with a CityPersons label |
| CityPersonsToCoco.ObjectAnnotationsPrefix | tools/citypersons2coco.py:44-60 | the annotations of the first objects are a prefix of the file's annotations: later objects only append |
| CityPersonsToCoco.KeptObjectAnnotated | tools/citypersons2coco.py:44-60 | every object with a CityPersons label yields its own annotation `Annotate(object, image id, id)`, placed right after the annotations of the objects before it and numbered by that place |
| CityPersonsToCoco.KeptIffPerson | tools/citypersons2coco.py:43-47 | a file has an object to keep exactly when it holds a person |
| CityPersonsToCoco.FromPrefix | tools/citypersons2coco.py:44-58 | an annotation built from an object of a prefix of the objects is built from an object of the whole list |
| CityPersonsToCoco.AnnotationsFromObjects | tools/citypersons2coco.py:44-58 | every annotation of a file is built from a kept object of that file: visible or full box, area `w*h`, its category id, and the four-corner polygon |
| CityPersonsToCoco.AnnotationFromObject | tools/citypersons2coco.py:44-58 | the same fact for a single annotation of a file |
| CityPersonsToCoco.AnnotationsIffPerson | tools/citypersons2coco.py:43-47 | a file yields an annotation exactly when it holds an object with a kept label, so `empty_image` is false exactly then |
| CityPersonsToCoco.ObjectAnnotationsSnoc | tools/citypersons2coco.py:44-60 | one more object appends its annotation, with the next id, exactly when its label is kept |
| CityPersonsToCoco.ConvertedIds | tools/citypersons2coco.py:29-60 | annotation ids run 0, 1, 2, ... across all files |
| CityPersonsToCoco.ConvertedImages | tools/citypersons2coco.py:31-62 | every image entry is built from the file at position `id - 1` (path with the suffix replaced, height, width), that file holds a person, and image ids increase strictly |
| CityPersonsToCoco.ImageStep | tools/citypersons2coco.py:61-62 | when every image entry of the earlier files is built from the file at position `id - 1`, which holds a person, so is every entry after one more file |
| CityPersonsToCoco.AnnotationSource | tools/citypersons2coco.py:31-60 | every annotation of the output lies in the block of some file `i`, at its place within that block, after the annotations of the files before `i` |
| CityPersonsToCoco.AnnotationsSnoc | tools/citypersons2coco.py:31-60 | one more file appends that file's annotations, with image id its position and ids numbered after all earlier ones |
| CityPersonsToCoco.AnnotationFromImage | tools/citypersons2coco.py:31-62 | one annotation of the output names a listed image and is built from a kept object of that image's file |
| CityPersonsToCoco.ConvertedAnnotations | tools/citypersons2coco.py:31-62 | every annotation refers to an image that is listed, and is built from a kept object of that image's file |
| CityPersonsToCoco.NamesOkSnoc | tools/citypersons2coco.py:35 | all names contain the suffix exactly when all earlier names do and the last one does |
| CityPersonsToCoco.PersonGetsImage | tools/citypersons2coco.py:61-62 | a file holding a person gets an image entry with id equal to its position plus 1 |
| CityPersonsToCoco.ImageHoldsPerson | tools/citypersons2coco.py:43-62 | the file an image entry is built from holds a person |
| CityPersonsToCoco.ImageIdHoldsPerson | tools/citypersons2coco.py:43-62 | a file whose position plus 1 is a listed image id holds a person |
| CityPersonsToCoco.ImageIffPerson | tools/citypersons2coco.py:43-62 | file `i` gets image id `i + 1` exactly when it holds an object with a kept label |
| CityPersonsToCoco.AnnotationsPrefix | tools/citypersons2coco.py:31-60 | the annotations of the first files are a prefix of all the annotations: later files only append |
| CityPersonsToCoco.AnnotationsStep | tools/citypersons2coco.py:31-60 | the annotations of the first `i + 1` files are those of the first `i`, then file `i`'s, with image id `i + 1`, numbered on |
| CityPersonsToCoco.ImagesStep | tools/citypersons2coco.py:31-62 | the images of the first `i + 1` files are those of the first `i`, then file `i`'s entry with id `i + 1` exactly when it has an object to keep |
| CityPersonsToCoco.AnnotationInFile | tools/citypersons2coco.py:31-60 | among the annotations of the first `i + 1` files, file `i`'s follow those of the earlier files |
| CityPersonsToCoco.FileAnnotationsInOutput | tools/citypersons2coco.py:31-60 | file `i`'s annotations sit in the output as one block, right after the annotations of the files before it |
| CityPersonsToCoco.KeptObjectConverted | tools/citypersons2coco.py:31-60 | every object with a CityPersons label in every file is in the output: object `j` of file `i` becomes the annotation at its place after all earlier annotations, with image id `i + 1` and that place as its id |
| CityPersonsToCoco.AnnotateObjects | tools/citypersons2coco.py:43-60 | the inner loop returns exactly `ObjectAnnotations` of the file, advances the counter by their number, and ends with `empty_image` true exactly when no object has a kept label |
| CityPersonsToCoco.CityPersonsToCocoDetection | tools/citypersons2coco.py:27-62 | the whole loop returns exactly `Convert`: the assertion error when some file name lacks `gtBboxCityPersons.json`, otherwise the images and annotations that `Images` and `Annotations` build with the CityPersons labels and image names |
| CityscapesToCoco.XyxyToXywh | tools/cityscapes2coco.py:57-63 | the XYWH box converts back to the XYXY box, keeps its corner, and has non-negative width and height exactly when the XYXY box is ordered |
| CityscapesToCoco.XywhRoundTrip | tools/cityscapes2coco.py:57-63 | converting XYWH to XYXY and back is the identity |
| CityscapesToCoco.AnnotationOf | tools/cityscapes2coco.py:57-69 | an annotation's box converts back to the instance's box, its area is non-negative for an ordered box, `iscrowd` is 1 or 0 as the flag says, the image id and id are the given ones, `ignore` is 0, and the category and segmentation are passed through |
| CityscapesToCoco.FileAnnotations | tools/cityscapes2coco.py:54-69 | one image yields one annotation per instance |
| CityscapesToCoco.FileAnnotationAt | tools/cityscapes2coco.py:54-69 | instance `j` of an image yields the annotation at place `j`, with id `firstId + j` |
| CityscapesToCoco.FileAnnotationsStep | tools/cityscapes2coco.py:54-69 | one more instance appends its own annotation, with the next id |
| CityscapesToCoco.ModesOkSnoc | tools/cityscapes2coco.py:56 | all instances are XYXY_ABS exactly when the earlier images' instances are and the last image's are |
| CityscapesToCoco.ConvertFailsIff | tools/cityscapes2coco.py:56 | conversion fails exactly when some instance's box mode is not XYXY_ABS |
| CityscapesToCoco.ImagesAreNumbered | tools/cityscapes2coco.py:46-53 | there is one image entry per record, and entry `i` is built from record `i` with id `i + 1` |
| CityscapesToCoco.AnnotationCount | tools/cityscapes2coco.py:54-69 | there are as many annotations as instances over all records |
| CityscapesToCoco.AnnotationAt | tools/cityscapes2coco.py:46-69 | instance `j` of record `i` becomes the annotation at position (instances before record `i`) + `j`, with image id `i + 1` and id one more than that position |
| CityscapesToCoco.AnnotationInRecord | tools/cityscapes2coco.py:46-69 | among the annotations of the first `i + 1` records, record `i`'s follow those of the earlier records |
| CityscapesToCoco.AnnotationsStep | tools/cityscapes2coco.py:46-69 | the annotations of the first `i + 1` records are those of the first `i`, then record `i`'s, with image id `i + 1` and ids numbered on |
| CityscapesToCoco.AnnotationsPrefix | tools/cityscapes2coco.py:46-69 | the annotations of the first records are a prefix of all the annotations: later records only append |
| CityscapesToCoco.EarlierAnnotationKept | tools/cityscapes2coco.py:54-69 | processing another record keeps every earlier annotation in place |
| CityscapesToCoco.AnnotationIds | tools/cityscapes2coco.py:44-68 | annotation ids run 1, 2, 3, ..., and every annotation's image id is that of a listed image |
| CityscapesToCoco.AnnotateInstances | tools/cityscapes2coco.py:54-69 | the inner loop succeeds exactly when every instance is XYXY_ABS, and then returns exactly `FileAnnotations` and advances the counter by the number of instances |
| CityscapesToCoco.CityscapesToCocoConvert | tools/cityscapes2coco.py:42-69 | the whole loop returns exactly `Convert`: the assertion error when some instance is not XYXY_ABS, otherwise `Images` and `Annotations` |

## Left out

- The random source is not modelled. Each call takes the values it would have drawn as a `SampleDraws`, so the distribution of the draws is not modelled.
- The floating-point sizing is not modelled: `_size_pct`, `_aspect`, and `int(np.sqrt(...))`. Each rectangle's height and width are inputs; they are non-negative.
- CutoutAugmentations.CutoutSampleSound: the exceptions raised by the sizing step are not modelled. These are `ZeroDivisionError` for an aspect draw of 0, and `ValueError` from `int(np.sqrt(...))` of a negative value, which happens for a negative aspect draw or, in `ObjectAwareCutout`, for a box with a negative area. Those calls are modelled as succeeding, or as failing with `randint`'s error, because each rectangle's size is an input. With the default arguments, every aspect draw is positive.
- CutoutAugmentations.CutoutGetTransform: it does not model the sizing step's exceptions, for the same reason.
- CutoutAugmentations.ObjectGetTransformRects: it does not model the sizing step's exceptions, including the one for a box with a negative area.
- CutoutAugmentations.ObjectGetTransform: it does not model the sizing step's exceptions raised for any box.
- Configuration numbers are exact reals. Python stores `size_pct[1] - size_pct[0]` for the default `(0.02, 0.05)` as 0.030000000000000002, where `DefaultCutoutAccepted` states 0.03, and likewise for the other scales.
- `CutoutTransforms.ClipBox`: the removal test is the exact `10 * remaining < area`. The source multiplies by the float `0.1`, whose rounding can differ when the remaining area is exactly a tenth.
- `CutoutTransforms.ApplyBox`: it uses the same exact removal test as `ClipBox`, and returns a sequence where the source returns a numpy array.
- `CutoutTransforms.ApplyImage`: each pixel is one `int` without a channel axis. The fill writes 0 to every channel alike, and the image's dtype is not modelled.
- Box and rectangle coordinates are integers. Float boxes given to `apply_box` are not modelled.
- The `Transform` and `Augmentation` base classes, `_set_attributes`, `_rand_range` and `NoOpTransform` are not modelled. The older `CutoutTransform` falls back to the base class's `apply_box`, which is not part of this model.
- File reading and writing, JSON parsing and encoding, directory walking and sorting, `tqdm`, `print` and `argparse` are left out. Each converter takes the already loaded records.
- Each converter's output `categories` list and `type` field are left out. The CityPersons category table is modelled only as far as the lookup uses it.
- In CityPersons, the JSON is loaded before the file name is checked. A file that fails to load or parse is not modelled.
- `load_cityscapes_instances` and the Cityscapes `labels` table are not part of this model. The input is the loaded list, typed as the source's docstring describes.
- `float(w * h)` is modelled as the integer product.
- Each inner loop over objects or instances is a helper method (`AnnotateObjects`, `AnnotateInstances`). It builds the file's annotations and the caller appends them in one step. The source appends each annotation directly, and the resulting list is the same.
- `cutout_cav.py`, `custom_dataset_mapper.py`, `custom.py`, `coco2result_format.py` and `append_mapped_dets.py` are not part of this model.
