/**
 * The COCO to YOLO annotation conversion of
 * src/scripts/annotations/convert_to_yolo.py: the bounding-box unit
 * conversion, the loop that groups annotations into one label file per
 * image, and the clean-up of category names. Reading the JSON files and
 * writing the label files are I/O: annotations and category values come in
 * as parameters, and the label files the loop would write come back as a
 * sequence, in the order they are written.
 */
module YoloConvert {
  import opened Wrappers
  import opened Strings

  /** COCO `bbox`: top-left corner, width and height, in pixels. */
  datatype CocoBox = CocoBox(xTopLeft: real, yTopLeft: real, width: real, height: real)

  /** YOLO box: center, width and height, relative to the image size. */
  datatype YoloBox = YoloBox(xCenter: real, yCenter: real, width: real, height: real)

  /** The image size every annotation is converted with. */
  const ImageWidth: real := 640.0
  const ImageHeight: real := 480.0

  // ---------------------------------------------------------------------
  // `convert_bbox_coco2yolo`

  /**
   * Center, width and height divided by the image size. A zero image size
   * fails at `1.0 / img_width` or `1.0 / img_height`.
   */
  function ConvertBboxCoco2Yolo(imgWidth: real, imgHeight: real, bbox: CocoBox): (r: Result<YoloBox>)
    ensures r.Err? <==> imgWidth == 0.0 || imgHeight == 0.0
    ensures r.Err? ==> r.error == ZeroDivisionError
    ensures r.Ok? ==> r.value.width * imgWidth == bbox.width && r.value.height * imgHeight == bbox.height
    ensures r.Ok? ==> r.value.xCenter * imgWidth == bbox.xTopLeft + bbox.width / 2.0
    ensures r.Ok? ==> r.value.yCenter * imgHeight == bbox.yTopLeft + bbox.height / 2.0
  {
    if imgWidth == 0.0 || imgHeight == 0.0 then Err(ZeroDivisionError)
    else
      var dw := 1.0 / imgWidth;
      var dh := 1.0 / imgHeight;
      var xCenter := bbox.xTopLeft + bbox.width / 2.0;
      var yCenter := bbox.yTopLeft + bbox.height / 2.0;
      Ok(YoloBox(xCenter * dw, yCenter * dh, bbox.width * dw, bbox.height * dh))
  }

  /** The inverse conversion: back to the top-left corner and pixel sizes. */
  function YoloToCoco(imgWidth: real, imgHeight: real, box: YoloBox): CocoBox
  {
    CocoBox((box.xCenter - box.width / 2.0) * imgWidth, (box.yCenter - box.height / 2.0) * imgHeight,
            box.width * imgWidth, box.height * imgHeight)
  }

  /** Converting to YOLO and back gives the COCO box again. */
  lemma CocoYoloRoundTrip(imgWidth: real, imgHeight: real, bbox: CocoBox)
    requires imgWidth != 0.0 && imgHeight != 0.0
    ensures YoloToCoco(imgWidth, imgHeight, ConvertBboxCoco2Yolo(imgWidth, imgHeight, bbox).value) == bbox
  {
    var y := ConvertBboxCoco2Yolo(imgWidth, imgHeight, bbox).value;
    assert (y.xCenter - y.width / 2.0) * imgWidth == y.xCenter * imgWidth - (y.width * imgWidth) / 2.0;
    assert (y.yCenter - y.height / 2.0) * imgHeight == y.yCenter * imgHeight - (y.height * imgHeight) / 2.0;
  }

  /** Converting a YOLO box to COCO and back gives it again. */
  lemma YoloCocoRoundTrip(imgWidth: real, imgHeight: real, box: YoloBox)
    requires imgWidth != 0.0 && imgHeight != 0.0
    ensures ConvertBboxCoco2Yolo(imgWidth, imgHeight, YoloToCoco(imgWidth, imgHeight, box)) == Ok(box)
  {
    var c := YoloToCoco(imgWidth, imgHeight, box);
    var y := ConvertBboxCoco2Yolo(imgWidth, imgHeight, c).value;
    assert y.xCenter * imgWidth == box.xCenter * imgWidth;
    assert y.yCenter * imgHeight == box.yCenter * imgHeight;
    assert y.width * imgWidth == box.width * imgWidth;
    assert y.height * imgHeight == box.height * imgHeight;
  }

  /** The box lies inside an image of the given size. */
  predicate InsideImage(imgWidth: real, imgHeight: real, bbox: CocoBox)
  {
    && 0.0 <= bbox.xTopLeft && 0.0 <= bbox.width && bbox.xTopLeft + bbox.width <= imgWidth
    && 0.0 <= bbox.yTopLeft && 0.0 <= bbox.height && bbox.yTopLeft + bbox.height <= imgHeight
  }

  predicate InUnitRange(box: YoloBox)
  {
    && 0.0 <= box.xCenter <= 1.0 && 0.0 <= box.yCenter <= 1.0
    && 0.0 <= box.width <= 1.0 && 0.0 <= box.height <= 1.0
  }

  lemma ScaledIntoUnit(v: real, size: real, q: real)
    requires size > 0.0 && 0.0 <= v <= size && q * size == v
    ensures 0.0 <= q <= 1.0
  {
  }

  /** A box inside the image converts to four values in [0, 1]. */
  lemma InsideImageInUnitRange(imgWidth: real, imgHeight: real, bbox: CocoBox)
    requires imgWidth > 0.0 && imgHeight > 0.0 && InsideImage(imgWidth, imgHeight, bbox)
    ensures InUnitRange(ConvertBboxCoco2Yolo(imgWidth, imgHeight, bbox).value)
  {
    var y := ConvertBboxCoco2Yolo(imgWidth, imgHeight, bbox).value;
    ScaledIntoUnit(bbox.xTopLeft + bbox.width / 2.0, imgWidth, y.xCenter);
    ScaledIntoUnit(bbox.yTopLeft + bbox.height / 2.0, imgHeight, y.yCenter);
    ScaledIntoUnit(bbox.width, imgWidth, y.width);
    ScaledIntoUnit(bbox.height, imgHeight, y.height);
  }

  // ---------------------------------------------------------------------
  // The grouping loop of `convert_coco_to_yolo`.

  datatype Annotation = Annotation(imageId: int, categoryId: int, bbox: CocoBox)

  /** One line of a label file: the category and the converted box. */
  datatype LabelLine = LabelLine(categoryId: int, box: YoloBox)

  /** A label file `labels/image<index>.txt` and the lines written to it. */
  datatype LabelFile = LabelFile(index: int, lines: seq<LabelLine>)

  function FileName(f: LabelFile): string
  {
    "image" + IntToString(f.index) + ".txt"
  }

  /** Label files with different indices have different names. */
  lemma FileNameInjective(f: LabelFile, g: LabelFile)
    requires FileName(f) == FileName(g)
    ensures f.index == g.index
  {
    var a, b := IntToString(f.index), IntToString(g.index);
    var x, y := a + ".txt", b + ".txt";
    assert FileName(f) == "image" + x && x == FileName(f)[5..];
    assert FileName(g) == "image" + y && y == FileName(g)[5..];
    assert a == x[..|a|] && b == y[..|b|];
    IntToStringInjective(f.index, g.index);
  }

  /** The label line of an annotation, converted for a 640x480 image. */
  function ToLine(ann: Annotation): (l: LabelLine)
    ensures l.categoryId == ann.categoryId
    ensures YoloToCoco(ImageWidth, ImageHeight, l.box) == ann.bbox
  {
    CocoYoloRoundTrip(ImageWidth, ImageHeight, ann.bbox);
    LabelLine(ann.categoryId, ConvertBboxCoco2Yolo(ImageWidth, ImageHeight, ann.bbox).value)
  }

  /** The loop's variables: the files written, the buffered `lines` and the counter `i`. */
  datatype Grouping = Grouping(written: seq<LabelFile>, lines: seq<LabelLine>, i: int)

  /**
   * One iteration: the current image's annotation is buffered; the next
   * image's annotation writes the buffer as `image<i + j>` and starts a new
   * one; any other annotation is dropped and only advances `i`.
   */
  function Step(g: Grouping, ann: Annotation, j: int): Grouping
  {
    if ann.imageId == g.i then g.(lines := g.lines + [ToLine(ann)])
    else if ann.imageId == g.i + 1 then
      Grouping(g.written + [LabelFile(ann.imageId - 1 + j, g.lines)], [ToLine(ann)], g.i + 1)
    else g.(i := g.i + 1)
  }

  /** The loop's variables after the given annotations, in order. */
  function Scan(anns: seq<Annotation>, j: int): Grouping
  {
    if anns == [] then Grouping([], [], 0)
    else Step(Scan(anns[..|anns| - 1], j), anns[|anns| - 1], j)
  }

  /** `convert_coco_to_yolo`: the label files it writes, in order. */
  method ConvertCocoToYolo(anns: seq<Annotation>, j: int) returns (written: seq<LabelFile>)
    ensures written == Scan(anns, j).written
  {
    var lines: seq<LabelLine> := [];
    var i := 0;
    written := [];
    for k := 0 to |anns|
      invariant Grouping(written, lines, i) == Scan(anns[..k], j)
    {
      assert anns[..k + 1][..k] == anns[..k];
      var ann := anns[k];
      var imgId := ann.imageId;
      if imgId == i {
        lines := lines + [ToLine(ann)];
      } else if imgId == i + 1 {
        written := written + [LabelFile(imgId - 1 + j, lines)];
        lines := [ToLine(ann)];
        i := i + 1;
      } else {
        i := i + 1;
      }
    }
    assert anns[..|anns|] == anns;
  }

  /** The annotations the loop does not drop: those whose image is the current or the next one. */
  function Kept(anns: seq<Annotation>, j: int): (r: seq<Annotation>)
    ensures |r| <= |anns|
  {
    if anns == [] then []
    else
      var g := Scan(anns[..|anns| - 1], j);
      var ann := anns[|anns| - 1];
      Kept(anns[..|anns| - 1], j) + (if ann.imageId == g.i || ann.imageId == g.i + 1 then [ann] else [])
  }

  function Lines(anns: seq<Annotation>): (r: seq<LabelLine>)
    ensures |r| == |anns| && forall k :: 0 <= k < |anns| ==> r[k] == ToLine(anns[k])
  {
    if anns == [] then [] else Lines(anns[..|anns| - 1]) + [ToLine(anns[|anns| - 1])]
  }

  /** The lines of the files, one file after the other. */
  function AllLines(files: seq<LabelFile>): seq<LabelLine>
  {
    if files == [] then [] else AllLines(files[..|files| - 1]) + files[|files| - 1].lines
  }

  /**
   * Nothing kept is lost or reordered: the written files followed by the
   * buffer hold the lines of exactly the kept annotations, in order.
   */
  lemma {:induction false} ScanConserves(anns: seq<Annotation>, j: int)
    ensures AllLines(Scan(anns, j).written) + Scan(anns, j).lines == Lines(Kept(anns, j))
  {
    if anns != [] {
      var front, ann := anns[..|anns| - 1], anns[|anns| - 1];
      var g := Scan(front, j);
      ScanConserves(front, j);
      if ann.imageId == g.i || ann.imageId == g.i + 1 {
        assert Kept(anns, j) == Kept(front, j) + [ann];
        LinesAppend(Kept(front, j), ann);
        if ann.imageId != g.i {
          var w := g.written + [LabelFile(ann.imageId - 1 + j, g.lines)];
          assert w[..|w| - 1] == g.written;
        }
      }
    }
  }

  lemma LinesAppend(anns: seq<Annotation>, ann: Annotation)
    ensures Lines(anns + [ann]) == Lines(anns) + [ToLine(ann)]
  {
    assert (anns + [ann])[..|anns|] == anns;
  }

  /**
   * The written files' indices strictly increase and stay below `i + j`,
   * the index the buffered lines belong to.
   */
  lemma {:induction false} ScanIndices(anns: seq<Annotation>, j: int)
    ensures var g := Scan(anns, j);
      && g.i >= 0
      && (forall a :: 0 <= a < |g.written| ==> g.written[a].index < g.i + j)
      && (forall a, b :: 0 <= a < b < |g.written| ==> g.written[a].index < g.written[b].index)
  {
    if anns != [] {
      ScanIndices(anns[..|anns| - 1], j);
    }
  }

  /** No label file is written twice. */
  lemma WrittenNamesDistinct(anns: seq<Annotation>, j: int, a: nat, b: nat)
    requires a < b < |Scan(anns, j).written|
    ensures FileName(Scan(anns, j).written[a]) != FileName(Scan(anns, j).written[b])
  {
    ScanIndices(anns, j);
    if FileName(Scan(anns, j).written[a]) == FileName(Scan(anns, j).written[b]) {
      FileNameInjective(Scan(anns, j).written[a], Scan(anns, j).written[b]);
    }
  }

  /** Once an annotation is kept, the buffer is never empty again. */
  lemma {:induction false} BufferNonEmpty(anns: seq<Annotation>, j: int)
    requires Kept(anns, j) != []
    ensures Scan(anns, j).lines != []
  {
    var front := anns[..|anns| - 1];
    if Kept(front, j) != [] {
      BufferNonEmpty(front, j);
    }
  }

  /**
   * The last buffered group is never written: whenever any annotation is
   * kept, fewer lines are written than there are kept annotations.
   */
  lemma LastGroupNeverWritten(anns: seq<Annotation>, j: int)
    requires Kept(anns, j) != []
    ensures |AllLines(Scan(anns, j).written)| < |Kept(anns, j)|
  {
    ScanConserves(anns, j);
    BufferNonEmpty(anns, j);
  }

  /** A single annotation of the first image writes no label file at all. */
  lemma SingleImageWritesNothing(ann: Annotation, j: int)
    requires ann.imageId == 0
    ensures Kept([ann], j) == [ann]
    ensures Scan([ann], j).written == []
  {
    assert [ann][..0] == [];
  }

  /** The intended behaviour: after the loop, the buffered group is written as `image<i + j>` too. */
  function ConvertCocoToYoloFlushed(anns: seq<Annotation>, j: int): seq<LabelFile>
  {
    var g := Scan(anns, j);
    if g.lines == [] then g.written else g.written + [LabelFile(g.i + j, g.lines)]
  }

  /** With the final write every kept annotation's line is written, in order, and no file twice. */
  lemma FlushedWritesAllKept(anns: seq<Annotation>, j: int)
    ensures AllLines(ConvertCocoToYoloFlushed(anns, j)) == Lines(Kept(anns, j))
    ensures var w := ConvertCocoToYoloFlushed(anns, j);
      forall a, b :: 0 <= a < b < |w| ==> w[a].index < w[b].index
  {
    var g := Scan(anns, j);
    ScanConserves(anns, j);
    ScanIndices(anns, j);
    if g.lines != [] {
      var w := g.written + [LabelFile(g.i + j, g.lines)];
      assert w[..|w| - 1] == g.written;
    }
  }

  // ---------------------------------------------------------------------
  // `create_list_from_categories`

  /** The namespaces and apostrophes removed from a category name, in this order. */
  function CleanCategory(v: string): (r: string)
    ensures '\'' !in r
    ensures |r| <= |v|
  {
    RemoveAll(RemoveAll(RemoveAll(RemoveAll(v, "suturo:"), "soma:"), "soma_home"), "'")
  }

  /** The cleaned category names, one per value, in the order of the values. */
  method CreateListFromCategories(values: seq<string>) returns (l: seq<string>)
    ensures |l| == |values|
    ensures forall k :: 0 <= k < |values| ==> l[k] == CleanCategory(values[k])
    ensures forall k :: 0 <= k < |l| ==> '\'' !in l[k]
  {
    l := [];
    for k := 0 to |values|
      invariant |l| == k && forall t :: 0 <= t < k ==> l[t] == CleanCategory(values[t])
    {
      var newVal := CleanCategory(values[k]);
      l := l + [newVal];
    }
  }

  predicate Plain(v: string)
  {
    !IsSubstring("suturo:", v) && !IsSubstring("soma:", v) && !IsSubstring("soma_home", v) && '\'' !in v
  }

  lemma NoApostropheNoSubstring(v: string)
    requires '\'' !in v
    ensures !IsSubstring("'", v)
    decreases |v|
  {
    if v != [] {
      assert v == [v[0]] + v[1..];
      NoApostropheNoSubstring(v[1..]);
    }
  }

  /** A name in no namespace and without apostrophes is kept as it is. */
  lemma CleanCategoryKeepsPlain(v: string)
    requires Plain(v)
    ensures CleanCategory(v) == v
  {
    NoApostropheNoSubstring(v);
  }

  /** `suturo:` in front of a plain name is removed. */
  lemma CleanCategoryStripsSuturo(v: string)
    requires Plain(v)
    ensures CleanCategory("suturo:" + v) == v
  {
    var s := "suturo:" + v;
    assert s[|"suturo:"|..] == v;
    assert RemoveAll(s, "suturo:") == RemoveAll(v, "suturo:");
    CleanCategoryKeepsPlain(v);
  }

  /** `soma:` in front of a plain name is removed. */
  lemma CleanCategoryStripsSoma(v: string)
    requires Plain(v)
    ensures CleanCategory("soma:" + v) == v
  {
    var t := "soma:" + v;
    SomaNoSuturo(v);
    assert t[|"soma:"|..] == v;
    assert RemoveAll(t, "soma:") == RemoveAll(v, "soma:");
    CleanCategoryKeepsPlain(v);
  }

  /** Removing a pattern that does not start at the first character keeps that character. */
  lemma RemoveAllCons(x: char, s: string, pat: string)
    requires pat != [] && !(pat <= [x] + s)
    ensures RemoveAll([x] + s, pat) == [x] + RemoveAll(s, pat)
  {
    assert ([x] + s)[1..] == s;
  }

  /** `soma:` followed by a plain name contains no `suturo:`. */
  lemma SomaNoSuturo(v: string)
    requires Plain(v)
    ensures RemoveAll("soma:" + v, "suturo:") == "soma:" + v
  {
    var p := "suturo:";
    assert "soma:" + v == ['s'] + ("oma:" + v);
    assert "oma:" + v == ['o'] + ("ma:" + v);
    assert "ma:" + v == ['m'] + ("a:" + v);
    assert "a:" + v == ['a'] + (":" + v);
    assert ":" + v == [':'] + v;
    NotPrefixAt(p, [':'] + v, 0);
    RemoveAllCons(':', v, p);
    NotPrefixAt(p, ['a'] + (":" + v), 0);
    RemoveAllCons('a', ":" + v, p);
    NotPrefixAt(p, ['m'] + ("a:" + v), 0);
    RemoveAllCons('m', "a:" + v, p);
    NotPrefixAt(p, ['o'] + ("ma:" + v), 0);
    RemoveAllCons('o', "ma:" + v, p);
    NotPrefixAt(p, ['s'] + ("oma:" + v), 1);
    RemoveAllCons('s', "oma:" + v, p);
  }

  lemma NotPrefixAt(p: string, q: string, k: nat)
    requires k < |p| && k < |q| && p[k] != q[k]
    ensures !(p <= q)
  {
  }
}
