/** The recognizer of animal_recognition.py, without the neural network:
    the label map read from the class-descriptions file, the filter that
    turns the detector's raw outputs into labelled boxes, and the argument
    handling of the box-drawing routine. */
module AnimalRecognition {
  import opened Wrappers
  import opened PyStr
  import MotionDetection

  /** `(class_name, x, y, width, height)` in pixels of the original frame. */
  datatype Detection = Detection(className: string, x: int, y: int, width: int, height: int)

  /** One row of `detection_boxes`: corners as fractions of the image size. */
  datatype Box = Box(ymin: real, xmin: real, ymax: real, xmax: real)

  /** The detector's raw outputs, parallel arrays indexed by detection. */
  datatype ModelOutput = ModelOutput(boxes: seq<Box>, scores: seq<real>, classNames: seq<string>)
  {
    predicate Parallel() {
      |boxes| == |scores| && |classNames| == |scores|
    }
  }

  /** What the filter is configured with: the label map, the keywords and
      the confidence threshold. */
  datatype Filter = Filter(classNames: map<string, string>, keywords: seq<string>, threshold: real)

  // ---------------------------------------------------------------------
  // The label map: one `id,name` entry per line

  /** The entry one line of the file adds: `line.strip().split(',')`, kept
      only when it has exactly two parts. */
  function ParseLine(line: string): (entry: Option<(string, string)>)
    ensures entry.Some? ==> && Strip(line) == entry.value.0 + [','] + entry.value.1
                            && ',' !in entry.value.0 && ',' !in entry.value.1
  {
    var parts := Split(Strip(line), ',');
    if |parts| == 2 then
      assert parts == [parts[0], parts[1]];
      SplitInTwo(Strip(line), ',', parts[0], parts[1]);
      Some((parts[0], parts[1]))
    else None
  }

  /** A line adds an entry exactly when its stripped text holds exactly one
      comma; the entry maps what precedes it to what follows it. */
  lemma ParseLineEntry(line: string, id: string, name: string)
    ensures ParseLine(line) == Some((id, name))
            <==> (Strip(line) == id + [','] + name && ',' !in id && ',' !in name)
  {
    SplitInTwo(Strip(line), ',', id, name);
    var parts := Split(Strip(line), ',');
    if |parts| == 2 {
      assert parts == [parts[0], parts[1]];
    }
  }

  /** A line with no comma, or with two or more, adds nothing. */
  lemma ParseLineRejects(line: string)
    ensures ParseLine(line).None? <==> forall id, name :: !(Strip(line) == id + [','] + name && ',' !in id && ',' !in name)
  {
    if ParseLine(line).Some? {
      var e := ParseLine(line).value;
      ParseLineEntry(line, e.0, e.1);
    }
    forall id, name | Strip(line) == id + [','] + name && ',' !in id && ',' !in name
      ensures ParseLine(line).Some?
    {
      ParseLineEntry(line, id, name);
    }
  }

  /** An entry, if any, that sets `id`. */
  predicate Sets(entry: Option<(string, string)>, id: string) {
    entry.Some? && entry.value.0 == id
  }

  /** The line adds an entry for `id`. */
  predicate DefinesId(line: string, id: string) {
    Sets(ParseLine(line), id)
  }

  /** The dictionary after one more entry. */
  function Put(m: map<string, string>, entry: Option<(string, string)>): map<string, string> {
    match entry
    case None => m
    case Some(e) => m[e.0 := e.1]
  }

  /** The dictionary after the entries, in order: a later entry overrides
      an earlier one. */
  function FoldEntries(entries: seq<Option<(string, string)>>): map<string, string> {
    if entries == [] then map[]
    else Put(FoldEntries(entries[..|entries| - 1]), entries[|entries| - 1])
  }

  /** What each line of the file adds. */
  function ParsedLines(lines: seq<string>): (entries: seq<Option<(string, string)>>)
    ensures |entries| == |lines|
  {
    if lines == [] then [] else ParsedLines(lines[..|lines| - 1]) + [ParseLine(lines[|lines| - 1])]
  }

  /** Entry `i` is what line `i` adds. */
  lemma {:induction false} ParsedLineAt(lines: seq<string>, i: nat)
    requires i < |lines|
    ensures ParsedLines(lines)[i] == ParseLine(lines[i])
  {
    var n := |lines| - 1;
    if i < n {
      ParsedLineAt(lines[..n], i);
      assert lines[..n][i] == lines[i];
    }
  }

  /** The label map read from `lines`. */
  function ClassNameMap(lines: seq<string>): map<string, string> {
    FoldEntries(ParsedLines(lines))
  }

  /** Reading one more line puts its entry into the map. */
  lemma ClassNameMapSnoc(lines: seq<string>, i: nat)
    requires i < |lines|
    ensures ClassNameMap(lines[..i + 1]) == Put(ClassNameMap(lines[..i]), ParseLine(lines[i]))
  {
    var prefix := lines[..i + 1];
    assert prefix[..i] == lines[..i] && prefix[i] == lines[i];
    var es := ParsedLines(lines[..i]);
    assert ParsedLines(prefix) == es + [ParseLine(lines[i])];
    FoldSnoc(es, ParseLine(lines[i]));
  }

  lemma FoldSnoc(entries: seq<Option<(string, string)>>, entry: Option<(string, string)>)
    ensures FoldEntries(entries + [entry]) == Put(FoldEntries(entries), entry)
  {
    assert (entries + [entry])[..|entries|] == entries;
  }

  /** An id is in the folded map iff some entry sets it. */
  lemma {:induction false} FoldKeys(entries: seq<Option<(string, string)>>, id: string)
    ensures id in FoldEntries(entries) <==> exists i :: 0 <= i < |entries| && Sets(entries[i], id)
  {
    if entries != [] {
      var init, last := entries[..|entries| - 1], entries[|entries| - 1];
      FoldKeys(init, id);
      if id in FoldEntries(entries) && !Sets(last, id) {
        var i :| 0 <= i < |init| && Sets(init[i], id);
        assert entries[i] == init[i];
      }
      if !(id in FoldEntries(entries)) {
        forall i | 0 <= i < |entries| ensures !Sets(entries[i], id) {
          if i < |init| {
            assert entries[i] == init[i];
          }
        }
      }
    }
  }

  /** The last entry that sets an id decides its value. */
  lemma {:induction false} FoldLastWins(entries: seq<Option<(string, string)>>, i: nat, id: string)
    requires i < |entries| && Sets(entries[i], id)
    requires forall j :: i < j < |entries| ==> !Sets(entries[j], id)
    ensures id in FoldEntries(entries) && FoldEntries(entries)[id] == entries[i].value.1
  {
    var init := entries[..|entries| - 1];
    if i < |entries| - 1 {
      assert init[i] == entries[i];
      forall j | i < j < |init| ensures !Sets(init[j], id) {
        assert init[j] == entries[j];
      }
      FoldLastWins(init, i, id);
    }
  }

  /** An id is in the label map iff some line of the file defines it. */
  lemma ClassNameMapKeys(lines: seq<string>, id: string)
    ensures id in ClassNameMap(lines) <==> exists i :: 0 <= i < |lines| && DefinesId(lines[i], id)
  {
    var entries := ParsedLines(lines);
    FoldKeys(entries, id);
    if id in ClassNameMap(lines) {
      var i :| 0 <= i < |entries| && Sets(entries[i], id);
      ParsedLineAt(lines, i);
    } else {
      forall i | 0 <= i < |lines| ensures !DefinesId(lines[i], id) {
        ParsedLineAt(lines, i);
      }
    }
  }

  /** The last line that defines an id decides its name. */
  lemma ClassNameMapLastWins(lines: seq<string>, i: nat, id: string)
    requires i < |lines| && DefinesId(lines[i], id)
    requires forall j :: i < j < |lines| ==> !DefinesId(lines[j], id)
    ensures id in ClassNameMap(lines) && ClassNameMap(lines)[id] == ParseLine(lines[i]).value.1
  {
    var entries := ParsedLines(lines);
    forall j | i < j < |entries| ensures !Sets(entries[j], id) {
      ParsedLineAt(lines, j);
    }
    ParsedLineAt(lines, i);
    FoldLastWins(entries, i, id);
  }

  // ---------------------------------------------------------------------
  // The detection filter

  /** The threshold test: strictly above. */
  predicate AboveThreshold(score: real, threshold: real) {
    score > threshold
  }

  /** `any(keyword in name for keyword in keywords)` */
  predicate MatchesKeyword(keywords: seq<string>, name: string) {
    exists k | 0 <= k < |keywords| :: Contains(name, keywords[k])
  }

  /** `class_names.get(raw, "").lower()` */
  function LabelOf(classNames: map<string, string>, raw: string): string {
    Lower(if raw in classNames then classNames[raw] else "")
  }

  /** Whether detection `i` survives the filter. */
  predicate Kept(f: Filter, out: ModelOutput, i: nat)
    requires out.Parallel() && i < |out.scores|
  {
    && AboveThreshold(out.scores[i], f.threshold)
    && LabelOf(f.classNames, out.classNames[i]) != ""
    && MatchesKeyword(f.keywords, Lower(LabelOf(f.classNames, out.classNames[i])))
  }

  /** A detection is kept iff its score is strictly above the threshold,
      its raw class name has a non-empty label, and some keyword occurs in
      that label: the label is already lowercase, so lowering it again for
      the keyword test changes nothing. */
  lemma KeptIff(f: Filter, out: ModelOutput, i: nat)
    requires out.Parallel() && i < |out.scores|
    ensures Kept(f, out, i) <==> && out.scores[i] > f.threshold
                                 && out.classNames[i] in f.classNames && f.classNames[out.classNames[i]] != ""
                                 && MatchesKeyword(f.keywords, LabelOf(f.classNames, out.classNames[i]))
  {
    LowerIdempotent(if out.classNames[i] in f.classNames then f.classNames[out.classNames[i]] else "");
  }

  /** The detection for a box whose corners, in pixels, are `left`, `top`,
      `right` and `bottom`: each value cut to an integer with Python's
      `int()`. */
  function PixelBox(className: string, left: real, top: real, right: real, bottom: real): Detection {
    Detection(className, MotionDetection.Trunc(left), MotionDetection.Trunc(top),
              MotionDetection.Trunc(right - left), MotionDetection.Trunc(bottom - top))
  }

  /** The pixel box is the exact box with each value cut toward zero: within
      one pixel of it, and never on the other side of zero. */
  lemma PixelBoxWithinAPixel(className: string, left: real, top: real, right: real, bottom: real)
    ensures var d := PixelBox(className, left, top, right, bottom);
            && d.className == className
            && -1.0 < d.x as real - left < 1.0 && -1.0 < d.y as real - top < 1.0
            && -1.0 < d.width as real - (right - left) < 1.0 && -1.0 < d.height as real - (bottom - top) < 1.0
            && (0.0 <= left ==> 0 <= d.x) && (left <= 0.0 ==> d.x <= 0)
            && (0.0 <= top ==> 0 <= d.y) && (top <= 0.0 ==> d.y <= 0)
  {
    MotionDetection.TruncWithinOne(left);
    MotionDetection.TruncWithinOne(top);
    MotionDetection.TruncWithinOne(right - left);
    MotionDetection.TruncWithinOne(bottom - top);
  }

  /** Detection `i` with its box scaled from fractions of the image to
      pixels of the original frame. */
  function ToDetection(f: Filter, out: ModelOutput, i: nat, imHeight: int, imWidth: int): Detection
    requires out.Parallel() && i < |out.scores|
  {
    var b := out.boxes[i];
    PixelBox(LabelOf(f.classNames, out.classNames[i]),
             b.xmin * imWidth as real, b.ymin * imHeight as real, b.xmax * imWidth as real, b.ymax * imHeight as real)
  }

  /** The list the loop has built after looking at the first `n` detections. */
  function Filtered(f: Filter, out: ModelOutput, imHeight: int, imWidth: int, n: nat): (r: seq<Detection>)
    requires out.Parallel() && n <= |out.scores|
    ensures |r| <= n
  {
    if n == 0 then []
    else
      Filtered(f, out, imHeight, imWidth, n - 1)
      + if Kept(f, out, n - 1) then [ToDetection(f, out, n - 1, imHeight, imWidth)] else []
  }

  /** Reference definition: the positions, in increasing order, of the
      detections among the first `n` that pass the filter. */
  function KeptIndices(f: Filter, out: ModelOutput, n: nat): (ks: seq<nat>)
    requires out.Parallel() && n <= |out.scores|
    ensures forall j :: 0 <= j < |ks| ==> ks[j] < n
    ensures forall j, l :: 0 <= j < l < |ks| ==> ks[j] < ks[l]
    ensures forall i :: 0 <= i < n ==> (i in ks <==> Kept(f, out, i))
  {
    if n == 0 then []
    else KeptIndices(f, out, n - 1) + if Kept(f, out, n - 1) then [n - 1] else []
  }

  /** The filter keeps exactly the detections that pass, in model order:
      entry `j` of the result is the detection at the `j`-th kept position. */
  lemma {:induction false} FilteredIsKeptInOrder(f: Filter, out: ModelOutput, imHeight: int, imWidth: int, n: nat)
    requires out.Parallel() && n <= |out.scores|
    ensures var r, ks := Filtered(f, out, imHeight, imWidth, n), KeptIndices(f, out, n);
            |r| == |ks| <= n
            && forall j :: 0 <= j < |r| ==> r[j] == ToDetection(f, out, ks[j], imHeight, imWidth)
  {
    if n > 0 {
      FilteredIsKeptInOrder(f, out, imHeight, imWidth, n - 1);
      var r0, ks0 := Filtered(f, out, imHeight, imWidth, n - 1), KeptIndices(f, out, n - 1);
      if Kept(f, out, n - 1) {
        var r, ks := Filtered(f, out, imHeight, imWidth, n), KeptIndices(f, out, n);
        assert r == r0 + [ToDetection(f, out, n - 1, imHeight, imWidth)];
        assert ks == ks0 + [n - 1];
        forall j | 0 <= j < |r| ensures r[j] == ToDetection(f, out, ks[j], imHeight, imWidth) {
          if j < |r0| {
            assert r[j] == r0[j] && ks[j] == ks0[j];
          }
        }
      } else {
        assert Filtered(f, out, imHeight, imWidth, n) == r0;
        assert KeptIndices(f, out, n) == ks0;
      }
    }
  }

  /** Every detection that comes out passed all three tests. */
  lemma FilteredSound(f: Filter, out: ModelOutput, imHeight: int, imWidth: int, j: nat)
    requires out.Parallel() && j < |Filtered(f, out, imHeight, imWidth, |out.scores|)|
    ensures var d := Filtered(f, out, imHeight, imWidth, |out.scores|)[j];
            && d.className != ""
            && MatchesKeyword(f.keywords, d.className)
            && exists i :: 0 <= i < |out.scores| && AboveThreshold(out.scores[i], f.threshold)
                           && d.className == LabelOf(f.classNames, out.classNames[i])
  {
    var n := |out.scores|;
    FilteredIsKeptInOrder(f, out, imHeight, imWidth, n);
    var i := KeptIndices(f, out, n)[j];
    assert Kept(f, out, i);
    LowerIdempotent(if out.classNames[i] in f.classNames then f.classNames[out.classNames[i]] else "");
  }

  // ---------------------------------------------------------------------
  // Drawing

  /** The `boxes` argument of `draw_bounding_box`: one tuple, a list of
      tuples, or any other value. */
  datatype Boxes = OneBox(box: Detection) | BoxList(list: seq<Detection>) | NotBoxes

  datatype DrawError = ValueError(message: string)

  /** What is drawn on the frame: a rectangle, or a text label at a point. */
  datatype Mark = Rectangle(topLeft: (int, int), bottomRight: (int, int)) | Text(text: string, origin: (int, int))

  /** A frame with the marks drawn onto it, in drawing order. */
  datatype Annotated = Annotated(image: MotionDetection.Image, marks: seq<Mark>)

  /** The two marks for one box: its rectangle and, ten pixels above its
      top edge, its label. */
  function BoxMarks(d: Detection): seq<Mark> {
    [Rectangle((d.x, d.y), (d.x + d.width, d.y + d.height)), Text(d.className, (d.x, d.y - 10))]
  }

  /** All marks for a list of boxes, box by box. */
  function MarksOf(boxes: seq<Detection>): (marks: seq<Mark>)
    ensures |marks| == 2 * |boxes|
    ensures forall j :: 0 <= j < |boxes| ==> marks[2 * j..2 * j + 2] == BoxMarks(boxes[j])
  {
    if boxes == [] then []
    else
      var init := boxes[..|boxes| - 1];
      var marks := MarksOf(init) + BoxMarks(boxes[|boxes| - 1]);
      assert forall j :: 0 <= j < |init| ==> marks[2 * j..2 * j + 2] == MarksOf(init)[2 * j..2 * j + 2];
      marks
  }

  class AnimalRecognizer {
    const keywords: seq<string>
    const threshold: real
    /** Whether `hub.load` produced a model. */
    var modelLoaded: bool
    var classNames: map<string, string>

    /** Loads the model and then the label map from the lines of the
        class-descriptions file. */
    constructor (classNameLines: seq<string>, keywords: seq<string> := ["cat", "man"], threshold: real := 0.3)
      ensures this.keywords == keywords && this.threshold == threshold
      ensures modelLoaded && classNames == ClassNameMap(classNameLines)
    {
      this.keywords := keywords;
      this.threshold := threshold;
      modelLoaded := true;
      classNames := map[];
      new;
      LoadClassNameMap(classNameLines);
    }

    function Config(): Filter
      reads this
    {
      Filter(classNames, keywords, threshold)
    }

    /** Rebuilds the label map from the file's lines; nothing else changes. */
    method LoadClassNameMap(lines: seq<string>)
      modifies this
      ensures classNames == ClassNameMap(lines)
      ensures modelLoaded == old(modelLoaded)
    {
      var names := map[];
      for i := 0 to |lines|
        invariant names == ClassNameMap(lines[..i])
        invariant modelLoaded == old(modelLoaded)
      {
        ClassNameMapSnoc(lines, i);
        var entry := ParseLine(lines[i]);
        if entry.Some? {
          var (classId, className) := entry.value;
          names := names[classId := className];
        }
      }
      assert lines[..|lines|] == lines;
      classNames := names;
    }

    /** With no model, nothing; otherwise the detections that pass the
        filter, in model order, at most one per model output. */
    method RecognizeAnimal(imHeight: int, imWidth: int, out: ModelOutput) returns (animalDetections: seq<Detection>)
      requires out.Parallel()
      ensures !modelLoaded ==> animalDetections == []
      ensures modelLoaded ==> animalDetections == Filtered(Config(), out, imHeight, imWidth, |out.scores|)
      ensures |animalDetections| <= |out.scores|
    {
      if !modelLoaded {
        return [];
      }
      var numDetections := |out.scores|;
      animalDetections := [];
      for i := 0 to numDetections
        invariant animalDetections == Filtered(Config(), out, imHeight, imWidth, i)
        invariant |animalDetections| <= i
      {
        if out.scores[i] > threshold {
          var classNameRaw := out.classNames[i];
          var className := LabelOf(classNames, classNameRaw);
          if className == "" {
            continue;
          }
          if MatchesKeyword(keywords, Lower(className)) {
            animalDetections := animalDetections + [ToDetection(Config(), out, i, imHeight, imWidth)];
          }
        }
      }
    }

    /** A single box is drawn as a one-box list, a list box by box; any
        other argument is a `ValueError` and nothing is drawn. */
    method DrawBoundingBox(frame: MotionDetection.Image, boxes: Boxes) returns (r: Result<Annotated, DrawError>)
      ensures boxes.NotBoxes? <==> r.Failure?
      ensures boxes.OneBox? ==> r == Success(Annotated(frame, BoxMarks(boxes.box)))
      ensures boxes.BoxList? ==> r == Success(Annotated(frame, MarksOf(boxes.list)))
    {
      var list: seq<Detection>;
      match boxes {
        case OneBox(b) =>
          list := [b];
          assert list[..0] == [];
          assert MarksOf(list) == BoxMarks(b);
        case BoxList(l) => list := l;
        case NotBoxes => return Failure(ValueError("boxes should be a tuple or a list of tuples"));
      }
      var marks := [];
      for i := 0 to |list|
        invariant marks == MarksOf(list[..i])
      {
        assert list[..i + 1][..i] == list[..i];
        marks := marks + BoxMarks(list[i]);
      }
      assert list[..|list|] == list;
      r := Success(Annotated(frame, marks));
    }
  }
}
