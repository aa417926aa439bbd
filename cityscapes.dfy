/** The record-building loop of the Cityscapes converter: the per-image
    dictionaries that detectron2's `load_cityscapes_instances` returns become
    a flat list of COCO image entries and a flat list of COCO annotations.
    Loading the dataset, the label table, and writing the JSON file are not
    part of this model. */
module CityscapesToCoco {
  import opened Wrappers

  /** detectron2's `BoxMode`. */
  datatype BoxMode = XyxyAbs | XywhAbs | XyxyRel | XywhRel | XywhaAbs

  /** A box as `(x1, y1, x2, y2)`. */
  datatype Xyxy = Xyxy(x1: int, y1: int, x2: int, y2: int)

  /** A box as `[x, y, w, h]`. */
  datatype Xywh = Xywh(x: int, y: int, w: int, h: int)

  /** One instance of the loader's `annotations` list. */
  datatype InstanceAnno = InstanceAnno(
    iscrowd: bool,
    labelName: string,
    categoryId: int,
    segmentation: seq<int>,
    bbox: Xyxy,
    bboxMode: BoxMode)

  /** One per-image dictionary of the loader. */
  datatype ImageRecord = ImageRecord(
    fileName: string,
    imageId: string,
    height: int,
    width: int,
    annotations: seq<InstanceAnno>)

  datatype ImageEntry = ImageEntry(fileName: string, height: int, width: int, id: int)

  datatype Annotation = Annotation(
    iscrowd: int,
    imageId: int,
    bbox: Xywh,
    area: int,
    categoryId: int,
    segmentation: seq<int>,
    ignore: int,
    id: int)

  /** The failed `assert anno['bbox_mode'] == BoxMode.XYXY_ABS`. */
  datatype ConvertError = NotXyxyAbs

  function XywhToXyxy(b: Xywh): Xyxy
  {
    Xyxy(b.x, b.y, b.x + b.w, b.y + b.h)
  }

  /** Corners to corner-and-size: nothing is lost, and an ordered box has a
      non-negative size. */
  function XyxyToXywh(b: Xyxy): (r: Xywh)
    ensures XywhToXyxy(r) == b
    ensures r.x == b.x1 && r.y == b.y1
    ensures b.x1 <= b.x2 && b.y1 <= b.y2 <==> r.w >= 0 && r.h >= 0
  {
    Xywh(b.x1, b.y1, b.x2 - b.x1, b.y2 - b.y1)
  }

  /** The size-and-corner form goes back to the same corner-and-size form. */
  lemma XywhRoundTrip(b: Xywh)
    ensures XyxyToXywh(XywhToXyxy(b)) == b
  {
  }

  /** The COCO annotation of one instance: its box converts back to the
      instance's corners, an ordered box has a non-negative area, and the
      crowd flag becomes 1 or 0. */
  function AnnotationOf(a: InstanceAnno, imageId: int, id: int): (r: Annotation)
    ensures XywhToXyxy(r.bbox) == a.bbox
    ensures a.bbox.x1 <= a.bbox.x2 && a.bbox.y1 <= a.bbox.y2 ==> r.area >= 0
    ensures (r.iscrowd == 1 <==> a.iscrowd) && (r.iscrowd == 0 <==> !a.iscrowd)
    ensures r.imageId == imageId && r.id == id && r.ignore == 0
    ensures r.categoryId == a.categoryId && r.segmentation == a.segmentation
  {
    var b := XyxyToXywh(a.bbox);
    Annotation(if a.iscrowd then 1 else 0, imageId, b, b.w * b.h, a.categoryId, a.segmentation, 0, id)
  }

  function ImageOf(d: ImageRecord, id: int): ImageEntry
  {
    ImageEntry(d.fileName, d.height, d.width, id)
  }

  /** The annotations of one image, ids counted from `firstId`: one per
      instance, in order. */
  function FileAnnotations(annos: seq<InstanceAnno>, imageId: int, firstId: int): (r: seq<Annotation>)
    ensures |r| == |annos|
    decreases |annos|
  {
    if annos == [] then []
    else
      var n := |annos| - 1;
      FileAnnotations(annos[..n], imageId, firstId) + [AnnotationOf(annos[n], imageId, firstId + n)]
  }

  /** Instance `j` gets the annotation at place `j`, with id `firstId + j`. */
  lemma {:induction false} FileAnnotationAt(annos: seq<InstanceAnno>, imageId: int, firstId: int, j: nat)
    requires j < |annos|
    ensures FileAnnotations(annos, imageId, firstId)[j] == AnnotationOf(annos[j], imageId, firstId + j)
    decreases |annos|
  {
    var n := |annos| - 1;
    if j < n {
      FileAnnotationAt(annos[..n], imageId, firstId, j);
    }
  }

  /** One more instance appends its own annotation, with the next id. */
  lemma FileAnnotationsStep(annos: seq<InstanceAnno>, imageId: int, firstId: int, j: nat)
    requires j < |annos|
    ensures FileAnnotations(annos[..j + 1], imageId, firstId)
      == FileAnnotations(annos[..j], imageId, firstId) + [AnnotationOf(annos[j], imageId, firstId + j)]
  {
    assert annos[..j + 1][..j] == annos[..j];
  }

  /** The number of instances over all images. */
  function TotalAnnos(data: seq<ImageRecord>): nat
    decreases |data|
  {
    if data == [] then 0 else TotalAnnos(data[..|data| - 1]) + |data[|data| - 1].annotations|
  }

  /** The image entries built from `data`: one per image, in order. */
  function Images(data: seq<ImageRecord>): seq<ImageEntry>
    decreases |data|
  {
    if data == [] then []
    else Images(data[..|data| - 1]) + [ImageOf(data[|data| - 1], |data|)]
  }

  /** The annotations built from `data`: those of each image in turn, ids
      counted on from the earlier images' instances. */
  function Annotations(data: seq<ImageRecord>): seq<Annotation>
    decreases |data|
  {
    if data == [] then []
    else
      var n := |data| - 1;
      Annotations(data[..n]) + FileAnnotations(data[n].annotations, n + 1, TotalAnnos(data[..n]) + 1)
  }

  /** Every instance of every image is in absolute corner form. */
  predicate ModesOk(data: seq<ImageRecord>)
  {
    forall i, j :: 0 <= i < |data| && 0 <= j < |data[i].annotations| ==> data[i].annotations[j].bboxMode == XyxyAbs
  }

  lemma ModesOkSnoc(data: seq<ImageRecord>)
    requires data != []
    ensures var n := |data| - 1;
      ModesOk(data) <==> ModesOk(data[..n]) && forall j :: 0 <= j < |data[n].annotations| ==> data[n].annotations[j].bboxMode == XyxyAbs
  {
    var n := |data| - 1;
    assert forall i :: 0 <= i < n ==> data[..n][i] == data[i];
  }

  /** What the converter builds: the lists, or the failed assertion when
      some instance's box is not in absolute corner form. */
  function Convert(data: seq<ImageRecord>): Result<(seq<ImageEntry>, seq<Annotation>), ConvertError>
  {
    if ModesOk(data) then Ok((Images(data), Annotations(data))) else Err(NotXyxyAbs)
  }

  /** The conversion fails exactly when some instance is in another box mode. */
  lemma ConvertFailsIff(data: seq<ImageRecord>)
    ensures Convert(data).Err? <==>
      exists i, j :: 0 <= i < |data| && 0 <= j < |data[i].annotations| && data[i].annotations[j].bboxMode != XyxyAbs
  {
  }

  /** Every image gets an entry, with its 1-based position as id. */
  lemma {:induction false} ImagesAreNumbered(data: seq<ImageRecord>)
    ensures var images := Images(data);
      |images| == |data| && forall i :: 0 <= i < |data| ==> images[i] == ImageOf(data[i], i + 1)
    decreases |data|
  {
    if data != [] {
      var n := |data| - 1;
      ImagesAreNumbered(data[..n]);
      assert forall i :: 0 <= i < n ==> data[..n][i] == data[i];
    }
  }

  /** There is one annotation per instance. */
  lemma {:induction false} AnnotationCount(data: seq<ImageRecord>)
    ensures |Annotations(data)| == TotalAnnos(data)
    decreases |data|
  {
    if data != [] {
      AnnotationCount(data[..|data| - 1]);
    }
  }

  /** The annotation of instance `j` of image `i` comes after those of the
      earlier images, carries the image's id, and has the id one past its
      position. */
  lemma AnnotationAt(data: seq<ImageRecord>, i: nat, j: nat)
    requires i < |data| && j < |data[i].annotations|
    ensures TotalAnnos(data[..i]) + j < |Annotations(data)|
    ensures Annotations(data)[TotalAnnos(data[..i]) + j] ==
      AnnotationOf(data[i].annotations[j], i + 1, TotalAnnos(data[..i]) + 1 + j)
  {
    AnnotationInRecord(data, i, j);
    FileAnnotationAt(data[i].annotations, i + 1, TotalAnnos(data[..i]) + 1, j);
    AnnotationsPrefix(data, i + 1, TotalAnnos(data[..i]) + j);
  }

  /** Within the first `i + 1` records, record `i`'s annotations follow
      those of the earlier records. */
  lemma AnnotationInRecord(data: seq<ImageRecord>, i: nat, j: nat)
    requires i < |data| && j < |data[i].annotations|
    ensures TotalAnnos(data[..i]) + j < |Annotations(data[..i + 1])|
    ensures Annotations(data[..i + 1])[TotalAnnos(data[..i]) + j]
      == FileAnnotations(data[i].annotations, i + 1, TotalAnnos(data[..i]) + 1)[j]
  {
    AnnotationCount(data[..i]);
    AnnotationsStep(data, i);
  }

  /** The annotations of the first `i + 1` records: those of the first `i`,
      then record `i`'s, numbered on. */
  lemma AnnotationsStep(data: seq<ImageRecord>, i: nat)
    requires i < |data|
    ensures Annotations(data[..i + 1])
      == Annotations(data[..i]) + FileAnnotations(data[i].annotations, i + 1, TotalAnnos(data[..i]) + 1)
  {
    assert data[..i + 1][..i] == data[..i] && data[..i + 1][i] == data[i];
  }

  /** Later records only append: the annotations of the first `m` records
      are a prefix of all annotations. */
  lemma {:induction false} AnnotationsPrefix(data: seq<ImageRecord>, m: nat, k: nat)
    requires m <= |data| && k < |Annotations(data[..m])|
    ensures k < |Annotations(data)| && Annotations(data)[k] == Annotations(data[..m])[k]
    decreases |data|
  {
    if m < |data| {
      var n := |data| - 1;
      assert data[..n][..m] == data[..m];
      AnnotationsPrefix(data[..n], m, k);
      EarlierAnnotationKept(data, k);
    } else {
      assert data[..m] == data;
    }
  }

  lemma EarlierAnnotationKept(data: seq<ImageRecord>, k: nat)
    requires data != [] && k < |Annotations(data[..|data| - 1])|
    ensures k < |Annotations(data)| && Annotations(data)[k] == Annotations(data[..|data| - 1])[k]
  {
  }

  /** Annotation ids run 1, 2, 3, ... and every annotation names an image
      that has an entry. */
  lemma {:induction false} AnnotationIds(data: seq<ImageRecord>)
    ensures forall k :: 0 <= k < |Annotations(data)| ==>
      Annotations(data)[k].id == k + 1 && 1 <= Annotations(data)[k].imageId <= |Images(data)|
    decreases |data|
  {
    if data != [] {
      var n := |data| - 1;
      AnnotationIds(data[..n]);
      AnnotationCount(data[..n]);
      ImagesAreNumbered(data[..n]);
      ImagesAreNumbered(data);
      var pre := Annotations(data[..n]);
      var anns := FileAnnotations(data[n].annotations, n + 1, TotalAnnos(data[..n]) + 1);
      forall k | 0 <= k < |Annotations(data)|
        ensures Annotations(data)[k].id == k + 1 && 1 <= Annotations(data)[k].imageId <= |Images(data)|
      {
        if k < |pre| {
          assert Annotations(data)[k] == pre[k];
        } else {
          assert Annotations(data)[k] == anns[k - |pre|];
          FileAnnotationAt(data[n].annotations, n + 1, TotalAnnos(data[..n]) + 1, k - |pre|);
        }
      }
    }
  }

  /** The inner loop over one image's instances: bumps the counter and
      builds the annotation of each, numbered on from `idcounter`; stops at
      the first instance not in absolute corner form. */
  method AnnotateInstances(annos: seq<InstanceAnno>, imageId: int, idcounter: int)
    returns (anns: seq<Annotation>, idcounter': int, ok: bool)
    ensures ok <==> forall j :: 0 <= j < |annos| ==> annos[j].bboxMode == XyxyAbs
    ensures ok ==> anns == FileAnnotations(annos, imageId, idcounter + 1) && idcounter' == idcounter + |annos|
  {
    anns, idcounter' := [], idcounter;
    for j := 0 to |annos|
      invariant idcounter' == idcounter + |anns|
      invariant anns == FileAnnotations(annos[..j], imageId, idcounter + 1)
      invariant forall j' :: 0 <= j' < j ==> annos[j'].bboxMode == XyxyAbs
    {
      idcounter' := idcounter' + 1;
      var anno := annos[j];
      if anno.bboxMode != XyxyAbs {
        return anns, idcounter', false;
      }
      var Xyxy(x1, y1, x2, y2) := anno.bbox;
      var w := x2 - x1;
      var h := y2 - y1;
      var annotation := Annotation(if anno.iscrowd then 1 else 0, imageId, Xywh(x1, y1, w, h), w * h,
                                   anno.categoryId, anno.segmentation, 0, idcounter');
      assert annotation == AnnotationOf(anno, imageId, idcounter + 1 + j);
      FileAnnotationsStep(annos, imageId, idcounter + 1, j);
      anns := anns + [annotation];
    }
    assert annos[..|annos|] == annos;
    ok := true;
  }

  /** The converter: one pass over the images, with running image and
      annotation counters. */
  method CityscapesToCocoConvert(data: seq<ImageRecord>)
    returns (r: Result<(seq<ImageEntry>, seq<Annotation>), ConvertError>)
    ensures r == Convert(data)
  {
    var images: seq<ImageEntry> := [];
    var annotations: seq<Annotation> := [];
    var idcounter := 0;
    var counter := 0;
    for i := 0 to |data|
      invariant counter == i && idcounter == |annotations| == TotalAnnos(data[..i])
      invariant ModesOk(data[..i])
      invariant images == Images(data[..i])
      invariant annotations == Annotations(data[..i])
    {
      counter := counter + 1;
      var d := data[i];
      images := images + [ImageEntry(d.fileName, d.height, d.width, counter)];
      var fileAnns, ok;
      fileAnns, idcounter, ok := AnnotateInstances(d.annotations, counter, idcounter);
      assert data[..i + 1][..i] == data[..i] && data[..i + 1][i] == d;
      ModesOkSnoc(data[..i + 1]);
      if !ok {
        assert !ModesOk(data) by {
          assert !ModesOk(data[..i + 1]);
        }
        return Err(NotXyxyAbs);
      }
      annotations := annotations + fileAnns;
    }
    assert data[..|data|] == data;
    return Ok((images, annotations));
  }
}
