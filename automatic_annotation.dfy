/**
 * Propagation of hand annotations to an unannotated model: the per-part
 * boxes of a hand-annotated "cluster center" are padded according to the
 * part's name and every vertex of the target model is classified by
 * inclusive box membership (automatic_annotation/automatic_annotation.py).
 */
module AutoAnnotation {
  import opened Wrappers
  import opened Geometry
  import opened Text

  /** The parts looked up among the hand-annotated files, in lookup order. */
  const Parts: seq<string> := ["front_right", "front_left", "back_right", "back_left", "trunk"]

  /** Padding margins: a wide extension toward the outside of a door or up and back from a trunk, and two thin ones. */
  const Wide: real := 1.0
  const Margin: real := 0.02
  const ThinMargin: real := 0.01

  // ---------------------------------------------------------------------
  // Vertex lines of an OBJ file
  // ---------------------------------------------------------------------

  /** A vertex line: its first two characters are `v` and a space. */
  predicate IsVertexLine(line: string)
  {
    StartsWith(line, "v ")
  }

  /** The vertex lines of a file, in file order. */
  function VertexLines(lines: seq<string>): seq<string>
  {
    if lines == [] then []
    else
      var last := lines[|lines| - 1];
      VertexLines(lines[..|lines| - 1]) + (if IsVertexLine(last) then [last] else [])
  }

  /** A line is kept exactly when it is a vertex line of the file. */
  lemma {:induction false} VertexLinesMembers(lines: seq<string>)
    ensures forall l :: l in VertexLines(lines) <==> l in lines && IsVertexLine(l)
  {
    if lines != [] {
      VertexLinesMembers(lines[..|lines| - 1]);
      assert lines == lines[..|lines| - 1] + [lines[|lines| - 1]];
    }
  }

  /** Filtering commutes with concatenation, so file order is kept. */
  lemma {:induction false} VertexLinesConcat(a: seq<string>, b: seq<string>)
    ensures VertexLines(a + b) == VertexLines(a) + VertexLines(b)
    decreases |b|
  {
    if b != [] {
      assert (a + b)[..|a + b| - 1] == a + b[..|b| - 1];
      VertexLinesConcat(a, b[..|b| - 1]);
    } else {
      assert a + b == a;
    }
  }

  /** The line scan of `get_vertices` (number parsing left out). */
  method GetVertexLines(lines: seq<string>) returns (kept: seq<string>)
    ensures kept == VertexLines(lines)
  {
    kept := [];
    for i := 0 to |lines|
      invariant kept == VertexLines(lines[..i])
    {
      assert lines[..i + 1][..i] == lines[..i];
      if |lines[i]| >= 2 && lines[i][..2] == "v " {
        kept := kept + [lines[i]];
      }
    }
    assert lines[..|lines|] == lines;
  }

  // ---------------------------------------------------------------------
  // Padding
  // ---------------------------------------------------------------------

  function PadRight(b: Box): Box
  {
    Box(Vec3(b.lo.x - Margin, b.lo.y - Margin, b.lo.z - ThinMargin),
        Vec3(b.hi.x + Wide, b.hi.y + Margin, b.hi.z + ThinMargin))
  }

  function PadLeft(b: Box): Box
  {
    Box(Vec3(b.lo.x - Wide, b.lo.y - Margin, b.lo.z - ThinMargin),
        Vec3(b.hi.x + Margin, b.hi.y + Margin, b.hi.z + ThinMargin))
  }

  /** The trunk's box keeps its x extent. */
  function PadTrunk(b: Box): Box
  {
    Box(Vec3(b.lo.x, b.lo.y - Margin, b.lo.z - Margin),
        Vec3(b.hi.x, b.hi.y + Wide, b.hi.z + Wide))
  }

  /** The padded box of a part: three independent name tests, applied in turn. */
  function Padded(part: string, b: Box): Box
  {
    var b1 := if Contains(part, "right") then PadRight(b) else b;
    var b2 := if Contains(part, "left") then PadLeft(b1) else b1;
    if Contains(part, "trunk") then PadTrunk(b2) else b2
  }

  /** Padding only ever grows a box, whatever the part name. */
  lemma PaddingGrows(part: string, b: Box)
    ensures Encloses(Padded(part, b), b)
  {
  }

  /** The exact amount each bound moves, as a sum of the policies the name selects. */
  lemma PaddingAmounts(part: string, b: Box)
    ensures var r, R, L, T := Padded(part, b), Contains(part, "right"), Contains(part, "left"), Contains(part, "trunk");
      && r.hi.x == b.hi.x + (if R then Wide else 0.0) + (if L then Margin else 0.0)
      && r.hi.y == b.hi.y + (if R then Margin else 0.0) + (if L then Margin else 0.0) + (if T then Wide else 0.0)
      && r.hi.z == b.hi.z + (if R then ThinMargin else 0.0) + (if L then ThinMargin else 0.0) + (if T then Wide else 0.0)
      && r.lo.x == b.lo.x - (if R then Margin else 0.0) - (if L then Wide else 0.0)
      && r.lo.y == b.lo.y - (if R then Margin else 0.0) - (if L then Margin else 0.0) - (if T then Margin else 0.0)
      && r.lo.z == b.lo.z - (if R then ThinMargin else 0.0) - (if L then ThinMargin else 0.0) - (if T then Margin else 0.0)
  {
  }

  /** A name matching none of the three keywords leaves the box as it is. */
  lemma PaddingNeutral(part: string, b: Box)
    requires !Contains(part, "right") && !Contains(part, "left") && !Contains(part, "trunk")
    ensures Padded(part, b) == b
  {
  }

  /** Only the wide margins differ between the two door policies: they extend opposite x bounds. */
  lemma DoorPaddingMirror(b: Box)
    ensures PadRight(b).hi.x - b.hi.x == b.lo.x - PadLeft(b).lo.x == Wide
    ensures b.lo.x - PadRight(b).lo.x == PadLeft(b).hi.x - b.hi.x == Margin
    ensures PadRight(b).lo.y == PadLeft(b).lo.y && PadRight(b).hi.y == PadLeft(b).hi.y
    ensures PadRight(b).lo.z == PadLeft(b).lo.z && PadRight(b).hi.z == PadLeft(b).hi.z
  {
  }

  // ---------------------------------------------------------------------
  // The stored boxes, padded in place
  // ---------------------------------------------------------------------

  /** A part name with its (unpadded or padded) box, as a value. */
  datatype NamedBox = NamedBox(part: string, box: Box)

  /**
   * One entry of the part-box dictionary: the part name and the two mutable
   * three-element arrays `bbox_min` and `bbox_max`.
   */
  class PartBox {
    const part: string
    const bboxMin: array<real>
    const bboxMax: array<real>

    ghost predicate Valid()
    {
      bboxMin.Length == 3 && bboxMax.Length == 3 && bboxMin != bboxMax
    }

    /** The box the two arrays currently hold. */
    function Value(): Box
      requires Valid()
      reads bboxMin, bboxMax
    {
      Box(Vec3(bboxMin[0], bboxMin[1], bboxMin[2]), Vec3(bboxMax[0], bboxMax[1], bboxMax[2]))
    }

    constructor (part: string, b: Box)
      ensures Valid() && this.part == part && Value() == b
      ensures fresh(bboxMin) && fresh(bboxMax)
    {
      this.part := part;
      bboxMin := new real[3] [b.lo.x, b.lo.y, b.lo.z];
      bboxMax := new real[3] [b.hi.x, b.hi.y, b.hi.z];
    }

    /** The `+=` / `-=` updates of the padding policy, on the stored arrays. */
    method Pad()
      requires Valid()
      modifies bboxMin, bboxMax
      ensures Value() == Padded(part, old(Value()))
    {
      if Contains(part, "right") {
        PadRightArrays();
      }
      if Contains(part, "left") {
        PadLeftArrays();
      }
      if Contains(part, "trunk") {
        PadTrunkArrays();
      }
    }

    /** A right part widens towards +x. */
    method PadRightArrays()
      requires Valid()
      modifies bboxMin, bboxMax
      ensures Value() == PadRight(old(Value()))
    {
      bboxMax[0] := bboxMax[0] + Wide;
      bboxMax[1] := bboxMax[1] + Margin;
      bboxMax[2] := bboxMax[2] + ThinMargin;
      bboxMin[0] := bboxMin[0] - Margin;
      bboxMin[1] := bboxMin[1] - Margin;
      bboxMin[2] := bboxMin[2] - ThinMargin;
    }

    /** A left part widens towards -x. */
    method PadLeftArrays()
      requires Valid()
      modifies bboxMin, bboxMax
      ensures Value() == PadLeft(old(Value()))
    {
      bboxMax[0] := bboxMax[0] + Margin;
      bboxMax[1] := bboxMax[1] + Margin;
      bboxMax[2] := bboxMax[2] + ThinMargin;
      bboxMin[0] := bboxMin[0] - Wide;
      bboxMin[1] := bboxMin[1] - Margin;
      bboxMin[2] := bboxMin[2] - ThinMargin;
    }

    /** The trunk grows upwards and backwards. */
    method PadTrunkArrays()
      requires Valid()
      modifies bboxMin, bboxMax
      ensures Value() == PadTrunk(old(Value()))
    {
      bboxMax[2] := bboxMax[2] + Wide;
      bboxMax[1] := bboxMax[1] + Wide;
      bboxMin[2] := bboxMin[2] - Margin;
      bboxMin[1] := bboxMin[1] - Margin;
    }
  }

  ghost predicate AllValid(boxes: seq<PartBox>)
  {
    forall i :: 0 <= i < |boxes| ==> boxes[i].Valid()
  }

  /** No two entries share an array. */
  ghost predicate Separate(boxes: seq<PartBox>)
  {
    forall i, j :: 0 <= i < |boxes| && 0 <= j < |boxes| && i != j ==>
      && boxes[i].bboxMin != boxes[j].bboxMin && boxes[i].bboxMin != boxes[j].bboxMax
      && boxes[i].bboxMax != boxes[j].bboxMin && boxes[i].bboxMax != boxes[j].bboxMax
  }

  /** The arrays of all entries. */
  ghost function Footprint(boxes: seq<PartBox>): set<object>
  {
    (set i | 0 <= i < |boxes| :: boxes[i].bboxMin as object) + (set i | 0 <= i < |boxes| :: boxes[i].bboxMax as object)
  }

  /** The dictionary's current content, as values. */
  ghost function Values(boxes: seq<PartBox>): (r: seq<NamedBox>)
    requires AllValid(boxes)
    reads Footprint(boxes)
    ensures |r| == |boxes|
    ensures forall i :: 0 <= i < |boxes| ==> r[i] == NamedBox(boxes[i].part, boxes[i].Value())
  {
    seq(|boxes|, i requires 0 <= i < |boxes| && boxes[i].Valid()
                   reads if 0 <= i < |boxes| then {boxes[i].bboxMin, boxes[i].bboxMax} else {} =>
      NamedBox(boxes[i].part, boxes[i].Value()))
  }

  // ---------------------------------------------------------------------
  // Classification
  // ---------------------------------------------------------------------

  /** The vertex group of one part: the part name and its vertex indices. */
  datatype Group = Group(part: string, indices: seq<nat>)

  predicate Increasing(s: seq<nat>)
  {
    forall i, j :: 0 <= i < j < |s| ==> s[i] < s[j]
  }

  /**
   * The indices of the vertices inside a box, ascending: `nonzero()` of the
   * all-axes membership mask.
   */
  function Members(vs: seq<Vec3>, b: Box): (r: seq<nat>)
    ensures forall k: nat :: k in r <==> k < |vs| && InBox(b, vs[k])
    ensures Increasing(r)
  {
    if vs == [] then []
    else
      var prev := Members(vs[..|vs| - 1], b);
      assert forall k: nat :: k in prev ==> k < |vs| - 1 && vs[k] == vs[..|vs| - 1][k];
      assert forall i :: 0 <= i < |prev| ==> prev[i] in prev;
      prev + (if InBox(b, vs[|vs| - 1]) then [|vs| - 1] else [])
  }

  /**
   * The classification of every dictionary entry: each part's padded box is
   * tested against all vertices, and a part with no member gets no group.
   */
  function Classify(vs: seq<Vec3>, boxes: seq<NamedBox>): seq<Group>
  {
    if boxes == [] then []
    else
      var nb := boxes[|boxes| - 1];
      var idx := Members(vs, Padded(nb.part, nb.box));
      Classify(vs, boxes[..|boxes| - 1]) + (if idx == [] then [] else [Group(nb.part, idx)])
  }

  /** Classifying one more entry appends its group, if it has members. */
  lemma ClassifyStep(vs: seq<Vec3>, nbs: seq<NamedBox>, k: nat)
    requires k < |nbs|
    ensures var idx := Members(vs, Padded(nbs[k].part, nbs[k].box));
      Classify(vs, nbs[..k + 1]) == Classify(vs, nbs[..k]) + (if idx == [] then [] else [Group(nbs[k].part, idx)])
  {
    assert nbs[..k + 1][..k] == nbs[..k];
  }

  /** Parts are classified independently: classifying two lists of boxes is classifying each. */
  lemma {:induction false} ClassifyConcat(vs: seq<Vec3>, a: seq<NamedBox>, b: seq<NamedBox>)
    ensures Classify(vs, a + b) == Classify(vs, a) + Classify(vs, b)
    decreases |b|
  {
    if b == [] {
      assert a + b == a;
    } else {
      assert (a + b)[..|a + b| - 1] == a + b[..|b| - 1];
      ClassifyConcat(vs, a, b[..|b| - 1]);
    }
  }

  /**
   * A group is produced exactly for an entry whose padded box holds some
   * vertex, and it lists exactly the vertices inside that padded box.
   */
  lemma {:induction false} ClassifyGroups(vs: seq<Vec3>, boxes: seq<NamedBox>)
    ensures forall g :: g in Classify(vs, boxes) <==>
      exists nb :: nb in boxes && g == Group(nb.part, Members(vs, Padded(nb.part, nb.box))) && g.indices != []
  {
    if boxes != [] {
      ClassifyGroups(vs, boxes[..|boxes| - 1]);
      assert boxes == boxes[..|boxes| - 1] + [boxes[|boxes| - 1]];
    }
  }

  /** An entry whose padded box holds a vertex gets its group. */
  lemma ClassifyHasGroup(vs: seq<Vec3>, boxes: seq<NamedBox>, nb: NamedBox)
    requires nb in boxes && Members(vs, Padded(nb.part, nb.box)) != []
    ensures Group(nb.part, Members(vs, Padded(nb.part, nb.box))) in Classify(vs, boxes)
  {
    ClassifyGroups(vs, boxes);
  }

  /**
   * `save_out_parts` up to the vertex groups: pad each stored box in place,
   * then collect its members. Stacking the target's vertices raises
   * `ValueError` when the target mesh has none, right after the first box
   * is padded.
   */
  method SaveOutParts(vertices: seq<Vec3>, boxes: seq<PartBox>) returns (r: Result<seq<Group>>)
    requires AllValid(boxes) && Separate(boxes)
    modifies Footprint(boxes)
    ensures r.Err? <==> vertices == [] && boxes != []
    ensures r.Err? ==> r.error == "ValueError"
    ensures r.Ok? ==> r.value == Classify(vertices, old(Values(boxes)))
    ensures r.Ok? ==> forall i :: 0 <= i < |boxes| ==> boxes[i].Value() == Padded(boxes[i].part, old(boxes[i].Value()))
    ensures r.Err? ==> boxes[0].Value() == Padded(boxes[0].part, old(boxes[0].Value()))
    ensures r.Err? ==> forall i :: 1 <= i < |boxes| ==> boxes[i].Value() == old(boxes[i].Value())
  {
    ghost var before := Values(boxes);
    var groups := [];
    for k := 0 to |boxes|
      invariant forall j :: 0 <= j < |boxes| ==> boxes[j].Value() == PaddedUpTo(before, k, j)
      invariant groups == Classify(vertices, before[..k])
      invariant vertices == [] ==> k == 0
    {
      PadAt(boxes, k);
      if vertices == [] {
        return Err("ValueError");
      }
      var idx := InBoundsIndices(vertices, boxes[k].Value());
      ClassifyStep(vertices, before, k);
      if idx != [] {
        groups := groups + [Group(boxes[k].part, idx)];
      }
    }
    assert before[..|boxes|] == before;
    return Ok(groups);
  }

  /** The box of entry `j` once the entries before `k` are padded. */
  function PaddedUpTo(nbs: seq<NamedBox>, k: nat, j: nat): Box
    requires j < |nbs|
  {
    if j < k then Padded(nbs[j].part, nbs[j].box) else nbs[j].box
  }

  /** Pads entry `k` in place; the other entries keep their boxes since no two share an array. */
  method PadAt(boxes: seq<PartBox>, k: nat)
    requires k < |boxes| && AllValid(boxes) && Separate(boxes)
    modifies boxes[k].bboxMin, boxes[k].bboxMax
    ensures boxes[k].Value() == Padded(boxes[k].part, old(boxes[k].Value()))
    ensures forall j :: 0 <= j < |boxes| && j != k ==> boxes[j].Value() == old(boxes[j].Value())
  {
    boxes[k].Pad();
  }

  /** The vertex scan of `save_out_parts`: the indices of the vertices inside a padded box. */
  method InBoundsIndices(vertices: seq<Vec3>, b: Box) returns (idx: seq<nat>)
    ensures idx == Members(vertices, b)
  {
    idx := [];
    for i := 0 to |vertices|
      invariant idx == Members(vertices[..i], b)
    {
      assert vertices[..i + 1][..i] == vertices[..i];
      if b.lo.x <= vertices[i].x <= b.hi.x && b.lo.y <= vertices[i].y <= b.hi.y && b.lo.z <= vertices[i].z <= b.hi.z {
        idx := idx + [i];
      }
    }
    assert vertices[..|vertices|] == vertices;
  }

  // ---------------------------------------------------------------------
  // Box extraction and the per-model driver
  // ---------------------------------------------------------------------

  /**
   * The boxes of the parts whose hand-annotated file exists (`hand` maps a
   * part to its file's vertices; an absent key is a missing file), in the
   * order of `parts`. An existing file without vertices makes the extrema
   * raise.
   */
  function ExtractBoxes(parts: seq<string>, hand: map<string, seq<Vec3>>): Result<seq<NamedBox>>
  {
    if parts == [] then Ok([])
    else match ExtractBoxes(parts[..|parts| - 1], hand)
      case Err(e) => Err(e)
      case Ok(done) =>
        var p := parts[|parts| - 1];
        if p !in hand then Ok(done)
        else match BoundingBox(hand[p])
          case None => Err("ValueError")
          case Some(b) => Ok(done + [NamedBox(p, b)])
  }

  /** The listed parts whose hand-annotated file exists, in list order. */
  function Present(parts: seq<string>, hand: map<string, seq<Vec3>>): (r: seq<string>)
    ensures forall p :: p in r <==> p in parts && p in hand
  {
    if parts == [] then []
    else
      var init, p := parts[..|parts| - 1], parts[|parts| - 1];
      assert parts == init + [p];
      Present(init, hand) + (if p in hand then [p] else [])
  }

  /**
   * Extraction fails exactly when some present file has no vertex; otherwise
   * it yields one entry per present part, in order, holding that file's
   * bounding box, and nothing for a missing file.
   */
  lemma {:induction false} ExtractBoxesSpec(parts: seq<string>, hand: map<string, seq<Vec3>>)
    ensures ExtractBoxes(parts, hand).Ok? <==> forall p :: p in parts && p in hand ==> hand[p] != []
    ensures ExtractBoxes(parts, hand).Ok? ==>
      var r := ExtractBoxes(parts, hand).value;
      && (forall nb :: nb in r ==> nb.part in parts && nb.part in hand && BoundingBox(hand[nb.part]) == Some(nb.box))
      && (forall p :: p in parts && p in hand ==> exists nb :: nb in r && nb.part == p)
    ensures ExtractBoxes(parts, hand).Ok? ==>
      var r := ExtractBoxes(parts, hand).value;
      && |r| == |Present(parts, hand)|
      && forall i :: 0 <= i < |r| ==> r[i].part == Present(parts, hand)[i]
  {
    if parts != [] {
      var init := parts[..|parts| - 1];
      ExtractBoxesSpec(init, hand);
      assert parts == init + [parts[|parts| - 1]];
    }
  }

  /**
   * Propagation to one target model fails exactly when a present
   * hand-annotated file has no vertex, or when the target mesh has no
   * vertex while some part's file is present.
   */
  lemma AutoAnnotateFails(parts: seq<string>, hand: map<string, seq<Vec3>>, vertices: seq<Vec3>)
    ensures AutoAnnotate(parts, hand, vertices).Err? <==>
      (exists p :: p in parts && p in hand && hand[p] == []) || (vertices == [] && exists p :: p in parts && p in hand)
  {
    ExtractBoxesSpec(parts, hand);
    if ExtractBoxes(parts, hand).Ok? && vertices == [] {
      var nbs := ExtractBoxes(parts, hand).value;
      if nbs != [] {
        var p := Present(parts, hand)[0];
        assert p in Present(parts, hand);
      }
    }
  }

  /** The box-dictionary loop of `main`: one entry per present hand-annotated part. */
  method BuildPartBoxes(parts: seq<string>, hand: map<string, seq<Vec3>>) returns (r: Result<seq<PartBox>>)
    ensures r.Ok? <==> ExtractBoxes(parts, hand).Ok?
    ensures r.Err? ==> ExtractBoxes(parts, hand) == Err(r.error)
    ensures r.Ok? ==> AllValid(r.value) && Separate(r.value) && Values(r.value) == ExtractBoxes(parts, hand).value
    ensures r.Ok? ==> forall i :: 0 <= i < |r.value| ==> fresh(r.value[i].bboxMin) && fresh(r.value[i].bboxMax)
  {
    var boxes: seq<PartBox> := [];
    for k := 0 to |parts|
      invariant AllValid(boxes) && Separate(boxes)
      invariant ExtractBoxes(parts[..k], hand) == Ok(Values(boxes))
      invariant forall i :: 0 <= i < |boxes| ==> fresh(boxes[i].bboxMin) && fresh(boxes[i].bboxMax)
    {
      r := ExtractAt(parts, k, hand, boxes);
      if r.Err? {
        return;
      }
      boxes := r.value;
    }
    assert parts[..|parts|] == parts;
    return Ok(boxes);
  }

  /** One iteration of the part loop: stores the box of part `k`, if its file is present. */
  method ExtractAt(parts: seq<string>, k: nat, hand: map<string, seq<Vec3>>, boxes: seq<PartBox>) returns (r: Result<seq<PartBox>>)
    requires k < |parts| && AllValid(boxes) && Separate(boxes)
    requires ExtractBoxes(parts[..k], hand) == Ok(Values(boxes))
    ensures r.Err? ==> ExtractBoxes(parts, hand) == Err(r.error)
    ensures r.Ok? ==> AllValid(r.value) && Separate(r.value) && ExtractBoxes(parts[..k + 1], hand) == Ok(Values(r.value))
    ensures r.Ok? ==> |boxes| <= |r.value| && r.value[..|boxes|] == boxes
    ensures r.Ok? ==> forall i :: |boxes| <= i < |r.value| ==> fresh(r.value[i].bboxMin) && fresh(r.value[i].bboxMax)
  {
    var part := parts[k];
    ExtractStep(parts, k, hand);
    if part !in hand {
      return Ok(boxes);
    }
    var vs := hand[part];
    if vs == [] {
      ExtractBoxesPrefixErr(parts, k + 1, hand);
      return Err("ValueError");
    }
    ghost var done := Values(boxes);
    var more := AppendBox(boxes, part, BoundingBox(vs).value);
    assert Values(more) == done + [NamedBox(part, BoundingBox(vs).value)];
    return Ok(more);
  }

  /** Stores one more box in fresh arrays behind the ones already stored. */
  method AppendBox(boxes: seq<PartBox>, part: string, box: Box) returns (r: seq<PartBox>)
    requires AllValid(boxes) && Separate(boxes)
    ensures |r| == |boxes| + 1 && r[..|boxes|] == boxes
    ensures fresh(r[|boxes|].bboxMin) && fresh(r[|boxes|].bboxMax)
    ensures AllValid(r) && Separate(r)
    ensures Values(r) == Values(boxes) + [NamedBox(part, box)]
  {
    var b := new PartBox(part, box);
    r := boxes + [b];
    assert r[..|boxes|] == boxes;
    assert Values(r) == Values(boxes) + [NamedBox(part, box)];
  }

  /** One step of extraction on a prefix that has not failed. */
  lemma ExtractStep(parts: seq<string>, k: nat, hand: map<string, seq<Vec3>>)
    requires k < |parts| && ExtractBoxes(parts[..k], hand).Ok?
    ensures parts[k] !in hand ==> ExtractBoxes(parts[..k + 1], hand) == ExtractBoxes(parts[..k], hand)
    ensures parts[k] in hand && hand[parts[k]] == [] ==> ExtractBoxes(parts[..k + 1], hand) == Err("ValueError")
    ensures parts[k] in hand && hand[parts[k]] != [] ==>
      ExtractBoxes(parts[..k + 1], hand)
        == Ok(ExtractBoxes(parts[..k], hand).value + [NamedBox(parts[k], BoundingBox(hand[parts[k]]).value)])
  {
    assert parts[..k + 1][..k] == parts[..k];
  }

  /** Once extraction fails on a prefix, it fails on the whole list. */
  lemma {:induction false} ExtractBoxesPrefixErr(parts: seq<string>, k: nat, hand: map<string, seq<Vec3>>)
    requires k <= |parts| && ExtractBoxes(parts[..k], hand).Err?
    ensures ExtractBoxes(parts, hand) == ExtractBoxes(parts[..k], hand)
    decreases |parts| - k
  {
    if k < |parts| {
      assert parts[..k + 1][..k] == parts[..k];
      ExtractBoxesPrefixErr(parts, k + 1, hand);
    } else {
      assert parts[..k] == parts;
    }
  }

  /** The whole propagation for one target model: extract, pad and classify (`main` passes `Parts`). */
  function AutoAnnotate(parts: seq<string>, hand: map<string, seq<Vec3>>, vertices: seq<Vec3>): Result<seq<Group>>
  {
    match ExtractBoxes(parts, hand)
    case Err(e) => Err(e)
    case Ok(nbs) =>
      if vertices == [] && nbs != [] then Err("ValueError")
      else Ok(Classify(vertices, nbs))
  }

  /** One iteration of the model loop of `main`, up to the vertex groups. */
  method AnnotateModel(parts: seq<string>, hand: map<string, seq<Vec3>>, vertices: seq<Vec3>) returns (r: Result<seq<Group>>)
    ensures r == AutoAnnotate(parts, hand, vertices)
  {
    var boxes := BuildPartBoxes(parts, hand);
    if boxes.Err? {
      return Err(boxes.error);
    }
    r := SaveOutParts(vertices, boxes.value);
  }

  /**
   * Every group of a propagated model belongs to a present part, is
   * non-empty and ascending, and lists exactly the target vertices inside
   * that part's padded hand-annotated box; every present part whose padded
   * box holds a target vertex gets a group.
   */
  lemma AutoAnnotateSpec(parts: seq<string>, hand: map<string, seq<Vec3>>, vertices: seq<Vec3>)
    requires AutoAnnotate(parts, hand, vertices).Ok?
    ensures forall g :: g in AutoAnnotate(parts, hand, vertices).value ==>
      && g.part in parts && g.part in hand && hand[g.part] != []
      && g.indices != [] && Increasing(g.indices)
      && forall k: nat :: k in g.indices <==> k < |vertices| && InBox(Padded(g.part, BoundingBox(hand[g.part]).value), vertices[k])
    ensures forall p, k :: p in parts && p in hand && hand[p] != [] && 0 <= k < |vertices| && InBox(Padded(p, BoundingBox(hand[p]).value), vertices[k]) ==>
      exists g :: g in AutoAnnotate(parts, hand, vertices).value && g.part == p
  {
    var nbs := ExtractBoxes(parts, hand).value;
    ExtractBoxesSpec(parts, hand);
    ClassifyGroups(vertices, nbs);
    forall p, k | p in parts && p in hand && hand[p] != [] && 0 <= k < |vertices| && InBox(Padded(p, BoundingBox(hand[p]).value), vertices[k])
      ensures exists g :: g in AutoAnnotate(parts, hand, vertices).value && g.part == p
    {
      var nb :| nb in nbs && nb.part == p;
      assert k in Members(vertices, Padded(p, nb.box));
      ClassifyHasGroup(vertices, nbs, nb);
    }
  }

  /** The hand-annotated vertices of a part lie inside its box, before and after padding. */
  lemma HandVerticesInside(hand: map<string, seq<Vec3>>, p: string)
    requires p in hand && hand[p] != []
    ensures forall v :: v in hand[p] ==> InBox(BoundingBox(hand[p]).value, v)
    ensures forall v :: v in hand[p] ==> InBox(Padded(p, BoundingBox(hand[p]).value), v)
  {
    forall v | v in hand[p] ensures InBox(Padded(p, BoundingBox(hand[p]).value), v) {
      PaddingGrows(p, BoundingBox(hand[p]).value);
    }
  }

  /** "front_left" selects the left policy alone. */
  lemma FrontLeftKeywords()
    ensures !Contains("front_left", "right") && Contains("front_left", "left") && !Contains("front_left", "trunk")
  {
    var name := "front_left";
    if Contains(name, "right") {
      var i :| 0 <= i <= 5 && OccursAt(name, "right", i);
      LeadingChars(name, "right", i);
      assert false;
    }
    if Contains(name, "trunk") {
      var i :| 0 <= i <= 5 && OccursAt(name, "trunk", i);
      LeadingChars(name, "trunk", i);
      assert false;
    }
    assert OccursAt("front_left", "left", 6);
  }

  /** A unit box of a front-left door, padded, and two test vertices. */
  lemma FrontLeftExample()
    ensures var padded := Padded("front_left", Box(Vec3(0.0, 0.0, 0.0), Vec3(1.0, 1.0, 1.0)));
      && padded == Box(Vec3(-1.0, -0.02, -0.01), Vec3(1.02, 1.02, 1.01))
      && InBox(padded, Vec3(-0.5, 0.5, 0.5))
      && !InBox(padded, Vec3(-1.5, 0.5, 0.5))
  {
    FrontLeftKeywords();
  }
}
