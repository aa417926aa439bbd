/** The record-building loop of `citypersons2coco_detection`: CityPersons
    per-image annotation files (already read and parsed) become a flat list
    of COCO image entries and a flat list of COCO annotations. Directory
    walking, JSON reading and writing, and the category list written to the
    output are not part of this model. */
module CityPersonsToCoco {
  import opened Wrappers

  /** A box as `[x, y, w, h]`. */
  datatype Xywh = Xywh(x: int, y: int, w: int, h: int)

  /** One entry of `objects`: its label, full box and visible box. */
  datatype PersonObject = PersonObject(labelName: string, bbox: Xywh, bboxVis: Xywh)

  /** The parsed content of one annotation file. */
  datatype GtData = GtData(imgHeight: int, imgWidth: int, objects: seq<PersonObject>)

  /** One annotation file: the city directory's name, the file's name, and
      its content. */
  datatype GtFile = GtFile(cityname: string, name: string, data: GtData)

  datatype ImageEntry = ImageEntry(fileName: string, height: int, width: int, id: int)

  datatype Annotation = Annotation(
    iscrowd: int,
    imageId: int,
    bbox: Xywh,
    area: int,
    categoryId: int,
    ignore: int,
    id: int,
    segmentation: seq<seq<int>>)

  /** The failed `assert 'gtBboxCityPersons.json' in fp.name`. */
  datatype ConvertError = MissingGtSuffix

  const GtSuffix: string := "gtBboxCityPersons.json"
  const ImageSuffix: string := "leftImg8bit.png"

  datatype Category = Category(id: int, name: string)

  /** The CityPersons categories, in the order the converter lists them. */
  const Categories: seq<Category> := [
    Category(1, "pedestrian"),
    Category(2, "rider"),
    Category(3, "sitting person"),
    Category(4, "person (other)")
  ]

  /** `cat2id[label]` for a label in `valid_cats`, `None` for any other label. */
  function LookupCategory(cats: seq<Category>, labelName: string): Option<int>
  {
    if cats == [] then None
    else if cats[0].name == labelName then Some(cats[0].id)
    else LookupCategory(cats[1..], labelName)
  }

  /** The id a label gets: one of the four CityPersons labels, each with its
      id, and `None` for every other label. */
  function CategoryId(labelName: string): Option<int>
  {
    if labelName == "pedestrian" then Some(1)
    else if labelName == "rider" then Some(2)
    else if labelName == "sitting person" then Some(3)
    else if labelName == "person (other)" then Some(4)
    else None
  }

  /** `CategoryId` is the converter's table lookup: `valid_cats` and `cat2id`
      built from the category list agree with it on every label. */
  lemma CategoryIdFromTable(labelName: string)
    ensures LookupCategory(Categories, labelName) == CategoryId(labelName)
  {
    var c0 := Categories;
    var c1 := [Category(2, "rider"), Category(3, "sitting person"), Category(4, "person (other)")];
    var c2 := [Category(3, "sitting person"), Category(4, "person (other)")];
    var c3 := [Category(4, "person (other)")];
    assert c0[1..] == c1 && c1[1..] == c2 && c2[1..] == c3 && c3[1..] == [];
    assert LookupCategory(c3, labelName) == if labelName == "person (other)" then Some(4) else None;
    assert LookupCategory(c2, labelName) == if labelName == "sitting person" then Some(3) else LookupCategory(c3, labelName);
    assert LookupCategory(c1, labelName) == if labelName == "rider" then Some(2) else LookupCategory(c2, labelName);
    assert LookupCategory(c0, labelName) == if labelName == "pedestrian" then Some(1) else LookupCategory(c1, labelName);
  }

  // ----------------------------------------------------------------------
  // Strings
  // ----------------------------------------------------------------------

  predicate StartsWith(s: string, p: string)
  {
    |p| <= |s| && s[..|p|] == p
  }

  /** Python's `p in s` for strings. */
  predicate Contains(s: string, p: string)
    decreases |s|
  {
    StartsWith(s, p) || (|s| > 0 && Contains(s[1..], p))
  }

  /** Python's `s.replace(pat, rep)`: every occurrence, left to right, not
      overlapping. */
  function ReplaceAll(s: string, pat: string, rep: string): string
    requires |pat| > 0
    decreases |s|
  {
    if |s| < |pat| then s
    else if s[..|pat|] == pat then rep + ReplaceAll(s[|pat|..], pat, rep)
    else [s[0]] + ReplaceAll(s[1..], pat, rep)
  }

  /** A name without the pattern is left as it is. */
  lemma {:induction false} ReplaceAbsent(s: string, pat: string, rep: string)
    requires |pat| > 0 && !Contains(s, pat)
    ensures ReplaceAll(s, pat, rep) == s
    decreases |s|
  {
    if |s| >= |pat| {
      ReplaceAbsent(s[1..], pat, rep);
      assert [s[0]] + s[1..] == s;
    }
  }

  /** A name that ends in the pattern, and holds it nowhere else, has
      exactly that last occurrence replaced. */
  lemma {:induction false} ReplaceAtEnd(p: string, pat: string, rep: string)
    requires |pat| > 0 && !Contains(p + pat[..|pat| - 1], pat)
    ensures ReplaceAll(p + pat, pat, rep) == p + rep
    decreases |p|
  {
    var s := p + pat;
    if p == [] {
      assert s == pat;
      assert s[..|pat|] == pat && s[|pat|..] == [];
    } else {
      var u := p + pat[..|pat| - 1];
      assert s[..|pat|] == u[..|pat|];
      assert !StartsWith(u, pat);
      assert u[1..] == p[1..] + pat[..|pat| - 1];
      assert s[1..] == p[1..] + pat;
      ReplaceAtEnd(p[1..], pat, rep);
      assert [s[0]] + (p[1..] + rep) == p + rep;
    }
  }

  // ----------------------------------------------------------------------
  // Records
  // ----------------------------------------------------------------------

  /** The image file named by an annotation file: the CityPersons suffix
      replaced by the image suffix. */
  function ImageName(gtName: string): string
  {
    ReplaceAll(gtName, GtSuffix, ImageSuffix)
  }

  /** What the conversion reads off a dataset: the category id of a label
      (`None` for a label it drops) and the image file an annotation file
      belongs to. The records below are built for any such pair; the
      converter itself uses `CityPersons`. */
  datatype Dataset = Dataset(categoryId: string -> Option<int>, imageName: string -> string)

  const CityPersons: Dataset := Dataset(CategoryId, ImageName)

  /** The image entry of a file: `<city>/<image name>`. */
  function ImageOf(ds: Dataset, f: GtFile, id: int): ImageEntry
  {
    ImageEntry(f.cityname + "/" + ds.imageName(f.name), f.data.imgHeight, f.data.imgWidth, id)
  }

  /** A CityPersons file `<stem>gtBboxCityPersons.json` whose name holds the
      suffix only at its end is listed as `<city>/<stem>leftImg8bit.png`. */
  lemma ImageFileName(f: GtFile, stem: string, id: int)
    requires f.name == stem + GtSuffix && !Contains(f.name[..|f.name| - 1], GtSuffix)
    ensures ImageOf(CityPersons, f, id).fileName == f.cityname + "/" + stem + ImageSuffix
  {
    assert f.name[..|f.name| - 1] == stem + GtSuffix[..|GtSuffix| - 1];
    ReplaceAtEnd(stem, GtSuffix, ImageSuffix);
  }

  /** The four corners of a box as one flat polygon, clockwise from `(x, y)`
      down the left side. */
  function Corners(b: Xywh): seq<int>
  {
    [b.x, b.y, b.x, b.y + b.h, b.x + b.w, b.y + b.h, b.x + b.w, b.y]
  }

  /** The annotation of a kept object. */
  function Annotate(ds: Dataset, o: PersonObject, imageId: int, id: int, useVis: bool): Annotation
    requires ds.categoryId(o.labelName).Some?
  {
    var b := if useVis then o.bboxVis else o.bbox;
    Annotation(0, imageId, b, b.w * b.h, ds.categoryId(o.labelName).value, 0, id, [Corners(b)])
  }

  predicate HasPerson(ds: Dataset, objs: seq<PersonObject>)
  {
    exists k :: 0 <= k < |objs| && ds.categoryId(objs[k].labelName).Some?
  }

  /** Annotation `a` is the one some kept object of `objs` yields under `a`'s
      own image id and id. */
  predicate FromObject(ds: Dataset, a: Annotation, objs: seq<PersonObject>, useVis: bool)
  {
    exists j :: 0 <= j < |objs| && ds.categoryId(objs[j].labelName).Some? && a == Annotate(ds, objs[j], a.imageId, a.id, useVis)
  }

  lemma HasPersonSnoc(ds: Dataset, objs: seq<PersonObject>)
    requires objs != []
    ensures HasPerson(ds, objs) <==>
      HasPerson(ds, objs[..|objs| - 1]) || ds.categoryId(objs[|objs| - 1].labelName).Some?
  {
    var pre := objs[..|objs| - 1];
    if HasPerson(ds, objs) {
      var k :| 0 <= k < |objs| && ds.categoryId(objs[k].labelName).Some?;
      if k < |pre| {
        assert pre[k] == objs[k];
      }
    }
    if HasPerson(ds, pre) {
      var k :| 0 <= k < |pre| && ds.categoryId(pre[k].labelName).Some?;
      assert objs[k] == pre[k];
    }
  }

  /** The annotations of one file's objects, ids counted from `firstId`: one
      per object with a CityPersons label, in order, each built from its
      object. */
  function ObjectAnnotations(ds: Dataset, objs: seq<PersonObject>, imageId: int, firstId: int, useVis: bool): (anns: seq<Annotation>)
    ensures |anns| <= |objs|
    decreases |objs|
  {
    if objs == [] then []
    else
      var n := |objs| - 1;
      var pre := ObjectAnnotations(ds, objs[..n], imageId, firstId, useVis);
      if ds.categoryId(objs[n].labelName).Some? then
        pre + [Annotate(ds, objs[n], imageId, firstId + |pre|, useVis)]
      else
        pre
  }

  /** A file's annotations carry consecutive ids from `firstId`, all under
      the file's image id. */
  lemma {:induction false} ObjectAnnotationIds(ds: Dataset, objs: seq<PersonObject>, imageId: int, firstId: int, useVis: bool)
    ensures var anns := ObjectAnnotations(ds, objs, imageId, firstId, useVis);
      forall k :: 0 <= k < |anns| ==> anns[k].id == firstId + k && anns[k].imageId == imageId
    decreases |objs|
  {
    if objs != [] {
      ObjectAnnotationIds(ds, objs[..|objs| - 1], imageId, firstId, useVis);
      ObjectAnnotationsSnoc(ds, objs, imageId, firstId, useVis);
    }
  }

  lemma FromPrefix(ds: Dataset, a: Annotation, objs: seq<PersonObject>, m: nat, useVis: bool)
    requires m <= |objs| && FromObject(ds, a, objs[..m], useVis)
    ensures FromObject(ds, a, objs, useVis)
  {
    var j :| 0 <= j < m && ds.categoryId(objs[..m][j].labelName).Some? && a == Annotate(ds, objs[..m][j], a.imageId, a.id, useVis);
    assert objs[..m][j] == objs[j];
  }

  /** Each annotation of a file is built from one of its objects. */
  lemma {:induction false} AnnotationsFromObjects(ds: Dataset, objs: seq<PersonObject>, imageId: int, firstId: int, useVis: bool)
    ensures var anns := ObjectAnnotations(ds, objs, imageId, firstId, useVis);
      forall k :: 0 <= k < |anns| ==> FromObject(ds, anns[k], objs, useVis)
    decreases |objs|
  {
    if objs != [] {
      var n := |objs| - 1;
      AnnotationsFromObjects(ds, objs[..n], imageId, firstId, useVis);
      var pre := ObjectAnnotations(ds, objs[..n], imageId, firstId, useVis);
      ObjectAnnotationsSnoc(ds, objs, imageId, firstId, useVis);
      var anns := ObjectAnnotations(ds, objs, imageId, firstId, useVis);
      forall k | 0 <= k < |anns| ensures FromObject(ds, anns[k], objs, useVis) {
        if k < |pre| {
          assert anns[k] == pre[k];
          FromPrefix(ds, pre[k], objs, n, useVis);
        } else {
          var a := Annotate(ds, objs[n], imageId, firstId + |pre|, useVis);
          assert anns[k] == a && a == Annotate(ds, objs[n], a.imageId, a.id, useVis);
        }
      }
    }
  }

  lemma AnnotationFromObject(ds: Dataset, objs: seq<PersonObject>, imageId: int, firstId: int, useVis: bool, j: nat)
    requires j < |ObjectAnnotations(ds, objs, imageId, firstId, useVis)|
    ensures FromObject(ds, ObjectAnnotations(ds, objs, imageId, firstId, useVis)[j], objs, useVis)
  {
    AnnotationsFromObjects(ds, objs, imageId, firstId, useVis);
  }

  /** A file yields an annotation exactly when one of its objects is a
      person. */
  lemma {:induction false} AnnotationsIffPerson(ds: Dataset, objs: seq<PersonObject>, imageId: int, firstId: int, useVis: bool)
    ensures |ObjectAnnotations(ds, objs, imageId, firstId, useVis)| > 0 <==> HasPerson(ds, objs)
    decreases |objs|
  {
    if objs != [] {
      var n := |objs| - 1;
      AnnotationsIffPerson(ds, objs[..n], imageId, firstId, useVis);
      HasPersonSnoc(ds, objs);
    }
  }

  /** One more object appends at most its own annotation. */
  lemma ObjectAnnotationsSnoc(ds: Dataset, objs: seq<PersonObject>, imageId: int, firstId: int, useVis: bool)
    requires objs != []
    ensures var n := |objs| - 1;
      var pre := ObjectAnnotations(ds, objs[..n], imageId, firstId, useVis);
      ObjectAnnotations(ds, objs, imageId, firstId, useVis)
        == if ds.categoryId(objs[n].labelName).Some? then pre + [Annotate(ds, objs[n], imageId, firstId + |pre|, useVis)] else pre
  {
  }

  /** How many objects carry a CityPersons label. */
  function KeptCount(ds: Dataset, objs: seq<PersonObject>): (c: nat)
    ensures c <= |objs|
    decreases |objs|
  {
    if objs == [] then 0
    else KeptCount(ds, objs[..|objs| - 1]) + (if ds.categoryId(objs[|objs| - 1].labelName).Some? then 1 else 0)
  }

  /** A file yields exactly one annotation per object with a CityPersons label. */
  lemma {:induction false} AnnotationsPerKeptObject(ds: Dataset, objs: seq<PersonObject>, imageId: int, firstId: int, useVis: bool)
    ensures |ObjectAnnotations(ds, objs, imageId, firstId, useVis)| == KeptCount(ds, objs)
    decreases |objs|
  {
    if objs != [] {
      AnnotationsPerKeptObject(ds, objs[..|objs| - 1], imageId, firstId, useVis);
    }
  }

  /** The annotations of a prefix of the objects are a prefix of the file's
      annotations: later objects only append. */
  lemma {:induction false} ObjectAnnotationsPrefix(ds: Dataset, objs: seq<PersonObject>, imageId: int, firstId: int, useVis: bool, m: nat, k: nat)
    requires m <= |objs| && k < |ObjectAnnotations(ds, objs[..m], imageId, firstId, useVis)|
    ensures k < |ObjectAnnotations(ds, objs, imageId, firstId, useVis)|
    ensures ObjectAnnotations(ds, objs, imageId, firstId, useVis)[k] == ObjectAnnotations(ds, objs[..m], imageId, firstId, useVis)[k]
    decreases |objs|
  {
    if m < |objs| {
      var n := |objs| - 1;
      assert objs[..n][..m] == objs[..m];
      ObjectAnnotationsPrefix(ds, objs[..n], imageId, firstId, useVis, m, k);
      ObjectAnnotationsSnoc(ds, objs, imageId, firstId, useVis);
    } else {
      assert objs[..m] == objs;
    }
  }

  /** Every object with a CityPersons label yields its own annotation, placed
      after the annotations of the objects before it and numbered by that
      place. */
  lemma KeptObjectAnnotated(ds: Dataset, objs: seq<PersonObject>, imageId: int, firstId: int, useVis: bool, j: nat)
    requires j < |objs| && ds.categoryId(objs[j].labelName).Some?
    ensures var p := |ObjectAnnotations(ds, objs[..j], imageId, firstId, useVis)|;
      && p < |ObjectAnnotations(ds, objs, imageId, firstId, useVis)|
      && ObjectAnnotations(ds, objs, imageId, firstId, useVis)[p] == Annotate(ds, objs[j], imageId, firstId + p, useVis)
  {
    var p := |ObjectAnnotations(ds, objs[..j], imageId, firstId, useVis)|;
    var mid := ObjectAnnotations(ds, objs[..j + 1], imageId, firstId, useVis);
    assert p < |mid| && mid[p] == Annotate(ds, objs[j], imageId, firstId + p, useVis) by {
      assert objs[..j + 1][..j] == objs[..j] && objs[..j + 1][j] == objs[j];
      ObjectAnnotationsSnoc(ds, objs[..j + 1], imageId, firstId, useVis);
    }
    ObjectAnnotationsPrefix(ds, objs, imageId, firstId, useVis, j + 1, p);
  }

  /** A file holds a person exactly when it has an object with a
      CityPersons label to count. */
  lemma {:induction false} KeptIffPerson(ds: Dataset, objs: seq<PersonObject>)
    ensures KeptCount(ds, objs) > 0 <==> HasPerson(ds, objs)
    decreases |objs|
  {
    if objs != [] {
      KeptIffPerson(ds, objs[..|objs| - 1]);
      HasPersonSnoc(ds, objs);
    }
  }

  /** The image entries built from `files`, in order: file `i` is listed, as
      image `i + 1`, when one of its objects has a CityPersons label. */
  function Images(ds: Dataset, files: seq<GtFile>): seq<ImageEntry>
    decreases |files|
  {
    if files == [] then []
    else
      var n := |files| - 1;
      Images(ds, files[..n]) + (if KeptCount(ds, files[n].data.objects) > 0 then [ImageOf(ds, files[n], n + 1)] else [])
  }

  /** The annotations built from `files`, in order, numbered on from file to
      file. */
  function Annotations(ds: Dataset, files: seq<GtFile>, useVis: bool): seq<Annotation>
    decreases |files|
  {
    if files == [] then []
    else
      var n := |files| - 1;
      var pre := Annotations(ds, files[..n], useVis);
      pre + ObjectAnnotations(ds, files[n].data.objects, n + 1, |pre|, useVis)
  }

  /** Annotation ids run 0, 1, 2, ... in order. */
  predicate ConsecutiveIds(anns: seq<Annotation>)
  {
    forall k :: 0 <= k < |anns| ==> anns[k].id == k
  }

  /** Image ids are 1-based file positions, increasing; each entry is built
      from its file, and that file holds a person. */
  predicate ImagesFromFiles(ds: Dataset, files: seq<GtFile>, images: seq<ImageEntry>)
  {
    && (forall k :: 0 <= k < |images| ==>
          1 <= images[k].id <= |files| &&
          images[k] == ImageOf(ds, files[images[k].id - 1], images[k].id) &&
          HasPerson(ds, files[images[k].id - 1].data.objects))
    && (forall k, l :: 0 <= k < l < |images| ==> images[k].id < images[l].id)
  }

  predicate HasImageId(images: seq<ImageEntry>, id: int)
  {
    exists l :: 0 <= l < |images| && images[l].id == id
  }

  /** Every annotation belongs to an emitted image and is built from an
      object of that image's file. */
  predicate AnnotationsFromImages(ds: Dataset, files: seq<GtFile>, images: seq<ImageEntry>, anns: seq<Annotation>, useVis: bool)
  {
    forall k :: 0 <= k < |anns| ==>
      && 1 <= anns[k].imageId <= |files|
      && HasImageId(images, anns[k].imageId)
      && FromObject(ds, anns[k], files[anns[k].imageId - 1].data.objects, useVis)
  }

  /** Annotation ids run 0, 1, 2, ... over all files. */
  lemma ConvertedIds(ds: Dataset, files: seq<GtFile>, useVis: bool)
    ensures ConsecutiveIds(Annotations(ds, files, useVis))
  {
    var anns := Annotations(ds, files, useVis);
    forall k | 0 <= k < |anns| ensures anns[k].id == k {
      var i, q := AnnotationSource(ds, files, useVis, k);
      ObjectAnnotationIds(ds, files[i].data.objects, i + 1, |Annotations(ds, files[..i], useVis)|, useVis);
    }
  }

  /** Image ids are the files' 1-based positions, increasing; each entry is
      built from its file, and only files holding a person get one. */
  lemma {:induction false} ConvertedImages(ds: Dataset, files: seq<GtFile>)
    ensures ImagesFromFiles(ds, files, Images(ds, files))
    decreases |files|
  {
    if files != [] {
      var n := |files| - 1;
      ConvertedImages(ds, files[..n]);
      var images := Images(ds, files);
      forall k | 0 <= k < |images|
        ensures 1 <= images[k].id <= |files|
        ensures images[k] == ImageOf(ds, files[images[k].id - 1], images[k].id)
        ensures HasPerson(ds, files[images[k].id - 1].data.objects)
      {
        ImageStep(ds, files, k);
      }
    }
  }

  /** One image entry after one more file: an earlier entry stays where it
      was, built from the same file; a new entry is the last file's. */
  lemma ImageStep(ds: Dataset, files: seq<GtFile>, k: nat)
    requires files != [] && ImagesFromFiles(ds, files[..|files| - 1], Images(ds, files[..|files| - 1]))
    requires k < |Images(ds, files)|
    ensures var e := Images(ds, files)[k];
      1 <= e.id <= |files| && e == ImageOf(ds, files[e.id - 1], e.id) && HasPerson(ds, files[e.id - 1].data.objects)
  {
    if k < |Images(ds, files[..|files| - 1])| {
      EarlierImageKept(ds, files, k);
    } else {
      LastImage(ds, files);
    }
  }

  lemma EarlierImageKept(ds: Dataset, files: seq<GtFile>, k: nat)
    requires files != [] && k < |Images(ds, files[..|files| - 1])|
    requires var e := Images(ds, files[..|files| - 1])[k];
      1 <= e.id <= |files| - 1 && e == ImageOf(ds, files[..|files| - 1][e.id - 1], e.id)
      && HasPerson(ds, files[..|files| - 1][e.id - 1].data.objects)
    ensures k < |Images(ds, files)| && Images(ds, files)[k] == Images(ds, files[..|files| - 1])[k]
    ensures files[..|files| - 1][Images(ds, files)[k].id - 1] == files[Images(ds, files)[k].id - 1]
  {
  }

  lemma LastImage(ds: Dataset, files: seq<GtFile>)
    requires files != [] && |Images(ds, files[..|files| - 1])| < |Images(ds, files)|
    ensures var n := |files| - 1;
      Images(ds, files)[|Images(ds, files[..n])|] == ImageOf(ds, files[n], n + 1) && HasPerson(ds, files[n].data.objects)
  {
    KeptIffPerson(ds, files[|files| - 1].data.objects);
  }

  /** Every annotation of the output is one of the annotations of some file
      `i`, at its place `q` within that file's block. */
  lemma {:induction false} AnnotationSource(ds: Dataset, files: seq<GtFile>, useVis: bool, k: nat)
    returns (i: nat, q: nat)
    requires k < |Annotations(ds, files, useVis)|
    ensures i < |files|
    ensures var base := |Annotations(ds, files[..i], useVis)|;
      var mine := ObjectAnnotations(ds, files[i].data.objects, i + 1, base, useVis);
      q < |mine| && k == base + q && Annotations(ds, files, useVis)[k] == mine[q]
    decreases |files|
  {
    var n := |files| - 1;
    var pre := Annotations(ds, files[..n], useVis);
    AnnotationsSnoc(ds, files, useVis);
    if k < |pre| {
      i, q := AnnotationSource(ds, files[..n], useVis, k);
      assert files[..n][..i] == files[..i] && files[..n][i] == files[i];
    } else {
      i, q := n, k - |pre|;
    }
  }

  /** One more file appends its own annotations, numbered on. */
  lemma AnnotationsSnoc(ds: Dataset, files: seq<GtFile>, useVis: bool)
    requires files != []
    ensures var n := |files| - 1;
      var pre := Annotations(ds, files[..n], useVis);
      Annotations(ds, files, useVis) == pre + ObjectAnnotations(ds, files[n].data.objects, n + 1, |pre|, useVis)
  {
  }

  /** An annotation of the output names the image of the file it comes
      from, which is listed, and is built from one of that file's objects. */
  lemma AnnotationFromImage(ds: Dataset, files: seq<GtFile>, useVis: bool, k: nat)
    requires k < |Annotations(ds, files, useVis)|
    ensures var a := Annotations(ds, files, useVis)[k];
      && 1 <= a.imageId <= |files|
      && HasImageId(Images(ds, files), a.imageId)
      && FromObject(ds, a, files[a.imageId - 1].data.objects, useVis)
  {
    var i, q := AnnotationSource(ds, files, useVis, k);
    var objs := files[i].data.objects;
    var base := |Annotations(ds, files[..i], useVis)|;
    ObjectAnnotationIds(ds, objs, i + 1, base, useVis);
    AnnotationFromObject(ds, objs, i + 1, base, useVis, q);
    AnnotationsIffPerson(ds, objs, i + 1, base, useVis);
    PersonGetsImage(ds, files, i);
  }

  /** Every annotation belongs to an emitted image and is built from an
      object of that image's file. */
  lemma ConvertedAnnotations(ds: Dataset, files: seq<GtFile>, useVis: bool)
    ensures AnnotationsFromImages(ds, files, Images(ds, files), Annotations(ds, files, useVis), useVis)
  {
    var anns := Annotations(ds, files, useVis);
    forall k | 0 <= k < |anns|
      ensures 1 <= anns[k].imageId <= |files|
      ensures HasImageId(Images(ds, files), anns[k].imageId)
      ensures FromObject(ds, anns[k], files[anns[k].imageId - 1].data.objects, useVis)
    {
      AnnotationFromImage(ds, files, useVis, k);
    }
  }

  /** Every file name carries the CityPersons suffix. */
  predicate NamesOk(files: seq<GtFile>)
  {
    forall i :: 0 <= i < |files| ==> Contains(files[i].name, GtSuffix)
  }

  lemma NamesOkSnoc(files: seq<GtFile>)
    requires files != []
    ensures NamesOk(files) <==> NamesOk(files[..|files| - 1]) && Contains(files[|files| - 1].name, GtSuffix)
  {
    var n := |files| - 1;
    if NamesOk(files[..n]) && Contains(files[n].name, GtSuffix) {
      forall k | 0 <= k < |files| ensures Contains(files[k].name, GtSuffix) {
        if k < n { assert files[..n][k] == files[k]; }
      }
    }
    if NamesOk(files) {
      forall k | 0 <= k < n ensures Contains(files[..n][k].name, GtSuffix) {
        assert files[..n][k] == files[k];
      }
    }
  }

  /** What `citypersons2coco_detection` builds: the lists, or the failed
      assertion when some file's name lacks the CityPersons suffix. */
  function Convert(files: seq<GtFile>, useVis: bool): Result<(seq<ImageEntry>, seq<Annotation>), ConvertError>
  {
    if NamesOk(files) then Ok((Images(CityPersons, files), Annotations(CityPersons, files, useVis)))
    else Err(MissingGtSuffix)
  }

  /** A file holding a person gets an image entry, with its 1-based position
      as id. */
  lemma {:induction false} PersonGetsImage(ds: Dataset, files: seq<GtFile>, i: nat)
    requires i < |files| && HasPerson(ds, files[i].data.objects)
    ensures HasImageId(Images(ds, files), i + 1)
    decreases |files|
  {
    var n := |files| - 1;
    var pre := Images(ds, files[..n]);
    if i == n {
      KeptIffPerson(ds, files[n].data.objects);
      assert Images(ds, files)[|pre|].id == i + 1;
    } else {
      assert files[..n][i] == files[i];
      PersonGetsImage(ds, files[..n], i);
      var l :| 0 <= l < |pre| && pre[l].id == i + 1;
      assert Images(ds, files)[l] == pre[l];
    }
  }

  /** The file an image entry is built from holds a person. */
  lemma ImageHoldsPerson(ds: Dataset, files: seq<GtFile>, l: nat)
    requires l < |Images(ds, files)|
    ensures 1 <= Images(ds, files)[l].id <= |files| && HasPerson(ds, files[Images(ds, files)[l].id - 1].data.objects)
  {
    ConvertedImages(ds, files);
  }

  /** A file that has an image entry holds a person. */
  lemma ImageIdHoldsPerson(ds: Dataset, files: seq<GtFile>, i: nat)
    requires i < |files| && HasImageId(Images(ds, files), i + 1)
    ensures HasPerson(ds, files[i].data.objects)
  {
    var l :| 0 <= l < |Images(ds, files)| && Images(ds, files)[l].id == i + 1;
    ImageHoldsPerson(ds, files, l);
  }

  /** A file gets an image entry, with its 1-based position as id, exactly
      when one of its objects is a person. */
  lemma ImageIffPerson(ds: Dataset, files: seq<GtFile>, i: nat)
    requires i < |files|
    ensures HasPerson(ds, files[i].data.objects) <==> HasImageId(Images(ds, files), i + 1)
  {
    if HasPerson(ds, files[i].data.objects) {
      PersonGetsImage(ds, files, i);
    }
    if HasImageId(Images(ds, files), i + 1) {
      ImageIdHoldsPerson(ds, files, i);
    }
  }

  /** Later files only append: the annotations of the first `m` files are
      a prefix of all annotations. */
  lemma {:induction false} AnnotationsPrefix(ds: Dataset, files: seq<GtFile>, useVis: bool, m: nat, k: nat)
    requires m <= |files| && k < |Annotations(ds, files[..m], useVis)|
    ensures k < |Annotations(ds, files, useVis)|
    ensures Annotations(ds, files, useVis)[k] == Annotations(ds, files[..m], useVis)[k]
    decreases |files|
  {
    if m < |files| {
      var n := |files| - 1;
      assert files[..n][..m] == files[..m];
      AnnotationsPrefix(ds, files[..n], useVis, m, k);
      var pre := Annotations(ds, files[..n], useVis);
      assert Annotations(ds, files, useVis)
        == pre + ObjectAnnotations(ds, files[n].data.objects, n + 1, |pre|, useVis);
    } else {
      assert files[..m] == files;
    }
  }

  /** File `i`'s annotations sit in the output as one block, right after the
      annotations of the files before it. */
  lemma FileAnnotationsInOutput(ds: Dataset, files: seq<GtFile>, useVis: bool, i: nat, q: nat)
    requires i < |files|
    requires q < |ObjectAnnotations(ds, files[i].data.objects, i + 1, |Annotations(ds, files[..i], useVis)|, useVis)|
    ensures var base := |Annotations(ds, files[..i], useVis)|;
      && base + q < |Annotations(ds, files, useVis)|
      && Annotations(ds, files, useVis)[base + q] == ObjectAnnotations(ds, files[i].data.objects, i + 1, base, useVis)[q]
  {
    AnnotationInFile(ds, files, useVis, i, q);
    AnnotationsPrefix(ds, files, useVis, i + 1, |Annotations(ds, files[..i], useVis)| + q);
  }

  /** Within the annotations of the first `i + 1` files, file `i`'s follow
      those of the earlier files. */
  lemma AnnotationInFile(ds: Dataset, files: seq<GtFile>, useVis: bool, i: nat, q: nat)
    requires i < |files|
    requires q < |ObjectAnnotations(ds, files[i].data.objects, i + 1, |Annotations(ds, files[..i], useVis)|, useVis)|
    ensures |Annotations(ds, files[..i], useVis)| + q < |Annotations(ds, files[..i + 1], useVis)|
    ensures Annotations(ds, files[..i + 1], useVis)[|Annotations(ds, files[..i], useVis)| + q]
      == ObjectAnnotations(ds, files[i].data.objects, i + 1, |Annotations(ds, files[..i], useVis)|, useVis)[q]
  {
    AnnotationsStep(ds, files, useVis, i);
  }

  /** The image entries of the first `i + 1` files: those of the first `i`,
      then file `i`'s when it has an object to keep. */
  lemma ImagesStep(ds: Dataset, files: seq<GtFile>, i: nat)
    requires i < |files|
    ensures Images(ds, files[..i + 1])
      == Images(ds, files[..i]) + (if KeptCount(ds, files[i].data.objects) > 0 then [ImageOf(ds, files[i], i + 1)] else [])
  {
    assert files[..i + 1][..i] == files[..i] && files[..i + 1][i] == files[i];
  }

  /** The annotations of the first `i + 1` files: those of the first `i`,
      then file `i`'s, numbered on. */
  lemma AnnotationsStep(ds: Dataset, files: seq<GtFile>, useVis: bool, i: nat)
    requires i < |files|
    ensures var pre := Annotations(ds, files[..i], useVis);
      Annotations(ds, files[..i + 1], useVis) == pre + ObjectAnnotations(ds, files[i].data.objects, i + 1, |pre|, useVis)
  {
    assert files[..i + 1][..i] == files[..i] && files[..i + 1][i] == files[i];
    AnnotationsSnoc(ds, files[..i + 1], useVis);
  }

  /** Every object with a CityPersons label, in every file, is in the output:
      object `j` of file `i` yields the annotation numbered by its place after
      all earlier annotations, under image id `i + 1`. */
  lemma KeptObjectConverted(ds: Dataset, files: seq<GtFile>, useVis: bool, i: nat, j: nat)
    requires i < |files| && j < |files[i].data.objects|
    requires ds.categoryId(files[i].data.objects[j].labelName).Some?
    ensures var objs := files[i].data.objects;
      var base := |Annotations(ds, files[..i], useVis)|;
      var p := base + |ObjectAnnotations(ds, objs[..j], i + 1, base, useVis)|;
      && p < |Annotations(ds, files, useVis)|
      && Annotations(ds, files, useVis)[p] == Annotate(ds, objs[j], i + 1, p, useVis)
  {
    var objs := files[i].data.objects;
    var base := |Annotations(ds, files[..i], useVis)|;
    KeptObjectAnnotated(ds, objs, i + 1, base, useVis, j);
    FileAnnotationsInOutput(ds, files, useVis, i, |ObjectAnnotations(ds, objs[..j], i + 1, base, useVis)|);
  }

  /** The inner loop over one file's objects: an annotation per object with
      a CityPersons label, numbered on from `idcounter`; the new counter; and
      whether none was made. */
  method AnnotateObjects(ds: Dataset, objs: seq<PersonObject>, imageId: int, idcounter: int, useVis: bool)
    returns (anns: seq<Annotation>, idcounter': int, emptyImage: bool)
    ensures anns == ObjectAnnotations(ds, objs, imageId, idcounter, useVis)
    ensures idcounter' == idcounter + |anns|
    ensures emptyImage <==> !HasPerson(ds, objs)
    ensures emptyImage <==> KeptCount(ds, objs) == 0
  {
    anns, idcounter', emptyImage := [], idcounter, true;
    for j := 0 to |objs|
      invariant anns == ObjectAnnotations(ds, objs[..j], imageId, idcounter, useVis)
      invariant idcounter' == idcounter + |anns|
      invariant emptyImage <==> anns == []
    {
      var o := objs[j];
      assert objs[..j + 1][..j] == objs[..j] && objs[..j + 1][j] == o;
      ObjectAnnotationsSnoc(ds, objs[..j + 1], imageId, idcounter, useVis);
      var cat := ds.categoryId(o.labelName);
      if cat.Some? {
        emptyImage := false;
        anns := anns + [Annotate(ds, o, imageId, idcounter', useVis)];
        idcounter' := idcounter' + 1;
      }
    }
    assert objs[..|objs|] == objs;
    assert anns == ObjectAnnotations(ds, objs, imageId, idcounter, useVis);
    AnnotationsIffPerson(ds, objs, imageId, idcounter, useVis);
    AnnotationsPerKeptObject(ds, objs, imageId, idcounter, useVis);
  }

  /** The converter: one pass over the files with running image and
      annotation counters. */
  method CityPersonsToCocoDetection(files: seq<GtFile>, useVis: bool)
    returns (r: Result<(seq<ImageEntry>, seq<Annotation>), ConvertError>)
    ensures r == Convert(files, useVis)
  {
    var images: seq<ImageEntry> := [];
    var annotations: seq<Annotation> := [];
    var idcounter := 0;
    var counter := 0;
    for i := 0 to |files|
      invariant counter == i && idcounter == |annotations|
      invariant NamesOk(files[..i])
      invariant images == Images(CityPersons, files[..i])
      invariant annotations == Annotations(CityPersons, files[..i], useVis)
    {
      counter := counter + 1;
      var f := files[i];
      if !Contains(f.name, GtSuffix) {
        assert !NamesOk(files) by { assert files[i] == f; }
        return Err(MissingGtSuffix);
      }
      var image := ImageEntry(f.cityname + "/" + ImageName(f.name), f.data.imgHeight, f.data.imgWidth, counter);
      var fileAnns, emptyImage;
      fileAnns, idcounter, emptyImage := AnnotateObjects(CityPersons, f.data.objects, counter, idcounter, useVis);
      annotations := annotations + fileAnns;
      if !emptyImage {
        images := images + [image];
      }
      AnnotationsStep(CityPersons, files, useVis, i);
      ImagesStep(CityPersons, files, i);
      assert files[..i + 1][..i] == files[..i] && files[..i + 1][i] == f;
      NamesOkSnoc(files[..i + 1]);
    }
    assert files[..|files|] == files;
    return Ok((images, annotations));
  }
}
