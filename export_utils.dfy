/**
 * The post-processing of exported part meshes (export_tools/utils.py):
 * the hinge point and rotation axis of each part, the material renaming of
 * OBJ and MTL files, the relative-path test and the face test.
 */
module ExportUtils {
  import opened Wrappers
  import opened Geometry
  import opened Text

  // ---------------------------------------------------------------------
  // Relative texture paths
  // ---------------------------------------------------------------------

  /** The two absolute dataset roots a texture path may point into. */
  const WorkstationRoot: string := "/home/mike/Projects/DIVA/car_models/02958343"
  const LaptopRoot: string := "/Users/mpeven/Downloads/02958343"

  /** A path is relative when it mentions neither dataset root and starts with "./". */
  function IsRelative(path: string): (r: bool)
    ensures r ==> StartsWith(path, "./")
    ensures Contains(path, WorkstationRoot) || Contains(path, LaptopRoot) ==> !r
    ensures !Contains(path, WorkstationRoot) && !Contains(path, LaptopRoot) && StartsWith(path, "./") ==> r
  {
    if Contains(path, WorkstationRoot) then false
    else if Contains(path, LaptopRoot) then false
    else StartsWith(path, "./")
  }

  /** A path that reaches into a dataset root is never relative, wherever the root appears. */
  lemma DatasetPathNotRelative(before: string, root: string, after: string)
    requires root == WorkstationRoot || root == LaptopRoot
    ensures !IsRelative(before + root + after)
  {
    var p := before + root + after;
    assert p[|before|..|before| + |root|] == root;
    PrefixContained(root, root);
    ContainsInSlice(p, |before|, |before| + |root|, root);
  }

  // ---------------------------------------------------------------------
  // Material names
  // ---------------------------------------------------------------------

  /** The material statement of OBJ files and the material definition of MTL files. */
  const UseMaterial: string := "usemtl"
  const NewMaterial: string := "newmtl"

  /**
   * The material rename as the source writes it: on a line whose first word
   * is `tag` and whose material name lacks `model`, every occurrence of the
   * name in the line is replaced by `model + "_" + name`. A `tag` line with
   * no name raises `IndexError`.
   */
  function RenameMaterialAsWritten(line: string, tag: string, model: string): Result<string>
  {
    var s := StripNewlines(line);
    if FirstWord(s) != tag then Ok(line)
    else match SecondWord(s)
      case None => Err("IndexError")
      case Some(name) =>
        if Contains(name, model) then Ok(line)
        else Ok(ReplaceAll(line, name, model + "_" + name))
  }

  /** Replacing every occurrence of the tag in "tag tag" rewrites both words. */
  lemma ReplaceTagTwice(tag: string, rep: string)
    requires tag != [] && ' ' !in tag
    ensures ReplaceAll(tag + " " + tag, tag, rep) == rep + " " + rep
  {
    var line := tag + " " + tag;
    assert line[..|tag|] == tag;
    assert line[|tag|..] == " " + tag;
    ReplaceAllMatch(line, tag, rep);
    assert tag[0] != ' ';
    ReplaceAllSkip(" " + tag, tag, rep);
    assert (" " + tag)[1..] == tag;
    assert tag[|tag|..] == [];
    assert tag[..|tag|] == tag;
    ReplaceAllMatch(tag, tag, rep);
    assert ReplaceAll([], tag, rep) == [];
  }

  /**
   * A material named like its own tag ("usemtl usemtl"): the as-written
   * rename replaces the tag too, so the line no longer starts with the tag
   * and the renamed material statement is lost.
   */
  lemma RenameAsWrittenBreaksTag(tag: string, model: string)
    requires tag != [] && ' ' !in tag && '\n' !in tag
    requires ' ' !in model && '\n' !in model && !Contains(tag, model)
    ensures RenameMaterialAsWritten(tag + " " + tag, tag, model) == Ok((model + "_" + tag) + " " + (model + "_" + tag))
    ensures FirstWord(StripNewlines(RenameMaterialAsWritten(tag + " " + tag, tag, model).value)) != tag
  {
    var name := model + "_" + tag;
    JoinedLineWords(tag, tag);
    assert FirstWord(tag) == tag;
    AsWrittenReplaces(tag + " " + tag, tag, model, tag);
    ReplaceTagTwice(tag, name);
    JoinedLineWords(name, name);
  }

  /** On a tag line whose name lacks the model id, the as-written rename replaces every occurrence of the name. */
  lemma AsWrittenReplaces(line: string, tag: string, model: string, name: string)
    requires FirstWord(StripNewlines(line)) == tag && SecondWord(StripNewlines(line)) == Some(name)
    requires !Contains(name, model)
    ensures RenameMaterialAsWritten(line, tag, model) == Ok(ReplaceAll(line, name, model + "_" + name))
  {
  }

  /** On the same line the intended rename keeps the tag and prefixes the name only. */
  lemma RenameKeepsTag(tag: string, model: string)
    requires tag != [] && ' ' !in tag && '\n' !in tag
    requires ' ' !in model && '\n' !in model && !Contains(tag, model)
    ensures RenameMaterial(tag + " " + tag, tag, model) == Ok(tag + " " + model + "_" + tag)
  {
    var line := tag + " " + tag;
    assert '\n' !in line;
    StripNewlinesNoop(line);
    WordsOfJoined(tag, tag);
    assert FirstWord(tag) == tag;
    RenameUnfold(line, tag, model, tag);
    assert line[..|tag| + 1] == tag + " ";
    assert line[|tag| + 1..] == tag;
  }

  /**
   * The material rename as intended: the prefix `model + "_"` is inserted in
   * front of the material name only, and nothing else in the line changes.
   */
  function RenameMaterial(line: string, tag: string, model: string): Result<string>
  {
    var s := StripNewlines(line);
    if FirstWord(s) != tag then Ok(line)
    else match AfterFirstSpace(s)
      case None => Err("IndexError")
      case Some(rest) =>
        if Contains(FirstWord(rest), model) then Ok(line)
        else Ok(line[..|tag| + 1] + model + "_" + line[|tag| + 1..])
  }

  /**
   * The intended rename keeps the tag, leaves the line alone when the name
   * already carries the model id, and otherwise turns the name `n` into
   * `model + "_" + n` and keeps the rest of the line.
   */
  lemma RenameMaterialSpec(line: string, tag: string, model: string)
    requires IsFileLine(line) && ' ' !in model && '\n' !in model
    requires RenameMaterial(line, tag, model).Ok?
    ensures var r := RenameMaterial(line, tag, model).value;
      && IsFileLine(r)
      && FirstWord(StripNewlines(r)) == FirstWord(StripNewlines(line))
      && (Body(r) == r <==> Body(line) == line)
      && (FirstWord(StripNewlines(line)) != tag ==> r == line)
      && (FirstWord(StripNewlines(line)) == tag ==>
            && SecondWord(StripNewlines(line)).Some?
            && var name := SecondWord(StripNewlines(line)).value;
            && (Contains(name, model) ==> r == line)
            && (!Contains(name, model) ==>
                  && SecondWord(StripNewlines(r)) == Some(model + "_" + name)
                  && AfterFirstSpace(StripNewlines(r)) == Some(model + "_" + AfterFirstSpace(StripNewlines(line)).value)))
  {
    var s := StripNewlines(line);
    FileLineStrip(line);
    if FirstWord(s) == tag {
      var rest := AfterFirstSpace(s).value;
      if !Contains(FirstWord(rest), model) {
        RenamedShape(line, tag, model, rest);
      }
    }
  }

  /** On a tag line whose name lacks the model id, the intended rename inserts the prefix after the tag. */
  lemma RenameUnfold(line: string, tag: string, model: string, rest: string)
    requires IsFileLine(line)
    requires FirstWord(StripNewlines(line)) == tag && AfterFirstSpace(StripNewlines(line)) == Some(rest)
    requires !Contains(FirstWord(rest), model)
    ensures |tag| + 1 <= |line|
    ensures RenameMaterial(line, tag, model) == Ok(line[..|tag| + 1] + model + "_" + line[|tag| + 1..])
  {
    FileLineStrip(line);
  }

  /** Inserting after the tag commutes with the terminating newline. */
  lemma InsertShape(line: string, b: string, tag: string, model: string, rest: string)
    requires b == tag + " " + rest && (line == b || line == b + "\n")
    ensures |tag| + 1 <= |line|
    ensures var r := line[..|tag| + 1] + model + "_" + line[|tag| + 1..];
      var b' := tag + " " + (model + "_" + rest);
      (line == b ==> r == b') && (line != b ==> r == b' + "\n")
  {
  }

  /** The shape of a renamed line: tag, space, prefixed name and the unchanged rest. */
  lemma RenamedShape(line: string, tag: string, model: string, rest: string)
    requires IsFileLine(line) && ' ' !in model && '\n' !in model
    requires FirstWord(StripNewlines(line)) == tag && AfterFirstSpace(StripNewlines(line)) == Some(rest)
    requires !Contains(FirstWord(rest), model)
    ensures RenameMaterial(line, tag, model).Ok?
    ensures var r := RenameMaterial(line, tag, model).value;
      && IsFileLine(r)
      && StripNewlines(r) == tag + " " + (model + "_" + rest)
      && FirstWord(StripNewlines(r)) == tag
      && AfterFirstSpace(StripNewlines(r)) == Some(model + "_" + rest)
      && SecondWord(StripNewlines(r)) == Some(model + "_" + FirstWord(rest))
      && (Body(r) == r <==> Body(line) == line)
  {
    var b := tag + " " + (model + "_" + rest);
    RenamedLine(line, tag, model, rest);
    TerminatedLine(b, RenameMaterial(line, tag, model).value);
    PrefixedNameWords(tag, model, rest);
    FileLineStrip(line);
    KeptTerminator(line, RenameMaterial(line, tag, model).value, StripNewlines(line), b);
  }

  /** Two lines that are each their body, or each their body and a newline, agree on ending in a newline. */
  lemma KeptTerminator(line: string, r: string, s: string, b: string)
    requires '\n' !in s && '\n' !in b
    requires line == s || line == s + "\n"
    requires (line == s ==> r == b) && (line != s ==> r == b + "\n")
    ensures Body(r) == r <==> Body(line) == line
  {
    if line != s {
      assert (b + "\n")[..|b|] == b;
      assert (s + "\n")[..|s|] == s;
    } else if s != [] {
      assert s[|s| - 1] in s;
      if b != [] {
        assert b[|b| - 1] in b;
      }
    } else if b != [] {
      assert b[|b| - 1] in b;
    }
  }

  /** The renamed line is the tag, a space and the prefixed name, with the line's own terminator. */
  lemma RenamedLine(line: string, tag: string, model: string, rest: string)
    requires IsFileLine(line) && '\n' !in model
    requires FirstWord(StripNewlines(line)) == tag && AfterFirstSpace(StripNewlines(line)) == Some(rest)
    requires !Contains(FirstWord(rest), model)
    ensures RenameMaterial(line, tag, model).Ok?
    ensures var b := tag + " " + (model + "_" + rest);
      && '\n' !in b
      && (line == StripNewlines(line) ==> RenameMaterial(line, tag, model).value == b)
      && (line != StripNewlines(line) ==> RenameMaterial(line, tag, model).value == b + "\n")
  {
    var s := StripNewlines(line);
    FileLineStrip(line);
    RenameUnfold(line, tag, model, rest);
    InsertShape(line, s, tag, model, rest);
  }

  /** The words of "tag model_rest". */
  lemma PrefixedNameWords(tag: string, model: string, rest: string)
    requires ' ' !in tag && ' ' !in model
    ensures var b := tag + " " + (model + "_" + rest);
      && FirstWord(b) == tag
      && AfterFirstSpace(b) == Some(model + "_" + rest)
      && SecondWord(b) == Some(model + "_" + FirstWord(rest))
  {
    WordsOfJoined(tag, model + "_" + rest);
    FirstWordShift(model + "_", rest);
  }

  /** Renaming an already renamed line changes nothing. */
  lemma RenameMaterialIdempotent(line: string, tag: string, model: string)
    requires IsFileLine(line) && ' ' !in model && '\n' !in model
    requires RenameMaterial(line, tag, model).Ok?
    ensures IsFileLine(RenameMaterial(line, tag, model).value)
    ensures RenameMaterial(RenameMaterial(line, tag, model).value, tag, model) == RenameMaterial(line, tag, model)
  {
    var s := StripNewlines(line);
    if FirstWord(s) == tag {
      var rest := AfterFirstSpace(s).value;
      if !Contains(FirstWord(rest), model) {
        RenamedStaysPut(line, tag, model, rest);
      }
    }
  }

  /** A freshly renamed material line already carries the model id, so a second pass keeps it. */
  lemma RenamedStaysPut(line: string, tag: string, model: string, rest: string)
    requires IsFileLine(line) && ' ' !in model && '\n' !in model
    requires FirstWord(StripNewlines(line)) == tag && AfterFirstSpace(StripNewlines(line)) == Some(rest)
    requires !Contains(FirstWord(rest), model)
    ensures RenameMaterial(line, tag, model).Ok?
    ensures var r := RenameMaterial(line, tag, model).value;
      IsFileLine(r) && RenameMaterial(r, tag, model) == Ok(r)
  {
    RenamedShape(line, tag, model, rest);
    var r := RenameMaterial(line, tag, model).value;
    PrefixedName(model, rest);
    NamedLineKept(r, tag, model, model + "_" + rest);
  }

  /** A name that starts with the model id and an underscore contains the model id. */
  lemma PrefixedName(model: string, rest: string)
    requires ' ' !in model
    ensures Contains(FirstWord(model + "_" + rest), model)
  {
    FirstWordShift(model + "_", rest);
    var name := model + "_" + FirstWord(rest);
    assert name[..|model|] == model;
    PrefixContained(name, model);
  }

  /** A material line whose name already contains the model id is left as it is. */
  lemma NamedLineKept(r: string, tag: string, model: string, rest: string)
    requires FirstWord(StripNewlines(r)) == tag && AfterFirstSpace(StripNewlines(r)) == Some(rest)
    requires Contains(FirstWord(rest), model)
    ensures RenameMaterial(r, tag, model) == Ok(r)
  {
  }

  /**
   * A line rewrite applied to every line of a file, in order: the rewritten
   * lines, or the error of the first line whose rewrite fails.
   */
  function MapLines(f: string -> Result<string>, ls: seq<string>): (r: Result<seq<string>>)
    ensures r.Ok? ==> |r.value| == |ls|
  {
    if ls == [] then Ok([])
    else match MapLines(f, ls[..|ls| - 1])
      case Err(e) => Err(e)
      case Ok(done) =>
        match f(ls[|ls| - 1])
        case Err(e) => Err(e)
        case Ok(l) => Ok(done + [l])
  }

  /** A line that fails makes the whole file fail. */
  lemma {:induction false} MapLinesPrefixErr(f: string -> Result<string>, ls: seq<string>, k: nat)
    requires k <= |ls| && MapLines(f, ls[..k]).Err?
    ensures MapLines(f, ls).Err?
    decreases |ls| - k
  {
    if k < |ls| {
      assert ls[..k + 1][..k] == ls[..k];
      MapLinesPrefixErr(f, ls, k + 1);
    } else {
      assert ls[..k] == ls;
    }
  }

  /** Rewriting one more line of a file whose first `i` lines were rewritten. */
  lemma MapLinesStep(f: string -> Result<string>, ls: seq<string>, i: nat)
    requires i < |ls| && MapLines(f, ls[..i]).Ok?
    ensures f(ls[i]).Err? ==> MapLines(f, ls).Err?
    ensures f(ls[i]).Ok? ==> MapLines(f, ls[..i + 1]) == Ok(MapLines(f, ls[..i]).value + [f(ls[i]).value])
  {
    assert ls[..i + 1][..i] == ls[..i];
    if f(ls[i]).Err? {
      MapLinesPrefixErr(f, ls, i + 1);
    }
  }

  /** A file is rewritten exactly when each of its lines is, and line by line. */
  lemma {:induction false} MapLinesSpec(f: string -> Result<string>, ls: seq<string>)
    ensures MapLines(f, ls).Ok? <==> forall i :: 0 <= i < |ls| ==> f(ls[i]).Ok?
    ensures MapLines(f, ls).Ok? ==> forall i :: 0 <= i < |ls| ==> f(ls[i]) == Ok(MapLines(f, ls).value[i])
  {
    if ls != [] {
      var init, last := ls[..|ls| - 1], ls[|ls| - 1];
      MapLinesSpec(f, init);
      assert forall i :: 0 <= i < |init| ==> init[i] == ls[i];
      match MapLines(f, init)
      case Err(_) =>
        assert MapLines(f, ls).Err?;
      case Ok(done) =>
        match f(last)
        case Err(_) =>
          assert MapLines(f, ls).Err?;
        case Ok(l) =>
          assert MapLines(f, ls) == Ok(done + [l]);
          forall i | 0 <= i < |ls|
            ensures f(ls[i]) == Ok((done + [l])[i])
          {
            if i < |init| {
              assert f(init[i]).Ok?;
            }
          }
    }
  }

  /** The material rename as a line rewrite. */
  function Renamer(tag: string, model: string): string -> Result<string>
  {
    line => RenameMaterial(line, tag, model)
  }

  /** The material pass over a whole file: every line is renamed or the pass fails. */
  lemma RenameLinesSpec(ls: seq<string>, tag: string, model: string)
    ensures MapLines(Renamer(tag, model), ls).Ok? <==> forall i :: 0 <= i < |ls| ==> RenameMaterial(ls[i], tag, model).Ok?
    ensures MapLines(Renamer(tag, model), ls).Ok? ==>
      forall i :: 0 <= i < |ls| ==> RenameMaterial(ls[i], tag, model) == Ok(MapLines(Renamer(tag, model), ls).value[i])
  {
    MapLinesSpec(Renamer(tag, model), ls);
  }

  /** One iteration of a line loop: rewrites line `i` of a file whose first `i` lines are done. */
  method RewriteLineAt(lines: array<string>, i: nat, f: string -> Result<string>, ghost orig: seq<string>) returns (ok: bool)
    requires i < lines.Length == |orig|
    requires MapLines(f, orig[..i]) == Ok(lines[..i]) && lines[i..] == orig[i..]
    modifies lines
    ensures ok ==> MapLines(f, orig[..i + 1]) == Ok(lines[..i + 1]) && lines[i + 1..] == orig[i + 1..]
    ensures !ok ==> MapLines(f, orig).Err?
  {
    assert lines[i] == orig[i];
    var r := f(lines[i]);
    MapLinesStep(f, orig, i);
    if r.Err? {
      return false;
    }
    lines[i] := r.value;
    assert lines[..i + 1] == old(lines[..i]) + [r.value];
    assert lines[i + 1..] == old(lines[i + 1..]);
    return true;
  }

  /**
   * The line loop of a pass over one file: every line is rewritten in place
   * by `f`, in order; when a line raises, the loop stops and the file is not
   * written back.
   */
  method RewriteLines(lines: array<string>, f: string -> Result<string>) returns (ok: bool)
    modifies lines
    ensures ok <==> MapLines(f, old(lines[..])).Ok?
    ensures ok ==> MapLines(f, old(lines[..])) == Ok(lines[..])
  {
    ghost var orig := lines[..];
    for i := 0 to lines.Length
      invariant MapLines(f, orig[..i]) == Ok(lines[..i])
      invariant lines[i..] == orig[i..]
    {
      ok := RewriteLineAt(lines, i, f, orig);
      if !ok {
        return;
      }
    }
    assert orig[..lines.Length] == orig && lines[..lines.Length] == lines[..];
    return true;
  }

  /** The material pass over one file with the intended rename, which keeps the tag. */
  method CorrectMaterialNames(lines: array<string>, tag: string, model: string) returns (ok: bool)
    modifies lines
    ensures ok <==> MapLines(Renamer(tag, model), old(lines[..])).Ok?
    ensures ok ==> MapLines(Renamer(tag, model), old(lines[..])) == Ok(lines[..])
  {
    ok := RewriteLines(lines, Renamer(tag, model));
  }

  /** The material rename as written, as a line rewrite. */
  function AsWrittenRenamer(tag: string, model: string): string -> Result<string>
  {
    line => RenameMaterialAsWritten(line, tag, model)
  }

  /** The material pass over one file as the source runs it, with the replace-all rename. */
  method CorrectMaterialNamesAsWritten(lines: array<string>, tag: string, model: string) returns (ok: bool)
    modifies lines
    ensures ok <==> MapLines(AsWrittenRenamer(tag, model), old(lines[..])).Ok?
    ensures ok ==> MapLines(AsWrittenRenamer(tag, model), old(lines[..])) == Ok(lines[..])
  {
    ok := RewriteLines(lines, AsWrittenRenamer(tag, model));
  }

  /**
   * On a file holding the single line "tag tag", the pass as written leaves
   * a line without the tag, while the intended pass keeps it.
   */
  lemma MaterialPassesDiffer(tag: string, model: string)
    requires tag != [] && ' ' !in tag && '\n' !in tag
    requires ' ' !in model && '\n' !in model && !Contains(tag, model)
    ensures MapLines(AsWrittenRenamer(tag, model), [tag + " " + tag]) == Ok([(model + "_" + tag) + " " + (model + "_" + tag)])
    ensures MapLines(Renamer(tag, model), [tag + " " + tag]) == Ok([tag + " " + model + "_" + tag])
  {
    var line := tag + " " + tag;
    RenameAsWrittenBreaksTag(tag, model);
    RenameKeepsTag(tag, model);
    MapLinesSingle(AsWrittenRenamer(tag, model), line);
    MapLinesSingle(Renamer(tag, model), line);
  }

  /** A one-line file is rewritten as its line is. */
  lemma MapLinesSingle(f: string -> Result<string>, l: string)
    ensures f(l).Ok? ==> MapLines(f, [l]) == Ok([f(l).value])
    ensures f(l).Err? ==> MapLines(f, [l]) == Err(f(l).error)
  {
    assert [l][..0] == [];
    assert MapLines(f, []) == Ok([]);
    if f(l).Ok? {
      assert [] + [f(l).value] == [f(l).value];
    }
  }

  // ---------------------------------------------------------------------
  // Faceless models
  // ---------------------------------------------------------------------

  /** A face statement: the first space-separated word is exactly "f". */
  predicate IsFaceLine(l: string)
  {
    FirstWord(StripNewlines(l)) == "f"
  }

  /** The scan of `remove_faceless_models`: stop at the first face line. */
  method HasFace(lines: seq<string>) returns (hasFace: bool)
    ensures hasFace <==> exists i :: 0 <= i < |lines| && IsFaceLine(lines[i])
  {
    hasFace := false;
    for i := 0 to |lines|
      invariant !hasFace
      invariant forall j :: 0 <= j < i ==> !IsFaceLine(lines[j])
    {
      var words0 := FirstWord(StripNewlines(lines[i]));
      if words0 == "f" {
        hasFace := true;
        break;
      }
    }
  }

  /** A line "w rest" is a face line exactly when its first word `w` is "f" ("fo 1" is not). */
  lemma FaceLineWords(w: string, rest: string)
    requires ' ' !in w && '\n' !in w && '\n' !in rest
    ensures IsFaceLine(w + " " + rest) <==> w == "f"
  {
    assert '\n' !in w + " " + rest;
    StripNewlinesNoop(w + " " + rest);
    WordsOfJoined(w, rest);
  }

  // ---------------------------------------------------------------------
  // Hinge and rotation metadata
  // ---------------------------------------------------------------------

  /** A rotation axis, as the integer triple written to the metadata document. */
  datatype Rotation = Rotation(x: int, y: int, z: int)

  /** One part's metadata: its hinge in engine coordinates and its rotation axis. */
  datatype Metadata = Metadata(hinge: Vec3, rotation: Rotation)

  /** What one part file contributes: nothing, an entry, or an exception. */
  datatype PartOutcome = NoEntry | Entry(meta: Metadata) | Failure(error: string)

  /** A part file: the part name and the positions of its vertex lines. */
  datatype PartFile = PartFile(part: string, vertices: seq<Vec3>)

  /** Editor coordinates to engine coordinates: (x, y, z) becomes (x, -z, y). */
  function ToEngine(p: Vec3): Vec3
  {
    Vec3(p.x, -p.z, p.y)
  }

  /** Engine coordinates back to editor coordinates. */
  function FromEngine(q: Vec3): Vec3
  {
    Vec3(q.x, q.z, -q.y)
  }

  /** The two conversions are inverse to each other. */
  lemma EngineRoundTrip(p: Vec3, q: Vec3)
    ensures FromEngine(ToEngine(p)) == p
    ensures ToEngine(FromEngine(q)) == q
  {
  }

  /**
   * The index of the vertex nearest to `ref` in L1 distance; on a tie the
   * lowest index wins, as `np.argmin` does.
   */
  function ArgMinL1(vs: seq<Vec3>, ref: Vec3): (k: nat)
    requires vs != []
    ensures k < |vs|
    ensures forall j :: 0 <= j < |vs| ==> L1(vs[k], ref) <= L1(vs[j], ref)
    ensures forall j :: 0 <= j < k ==> L1(vs[k], ref) < L1(vs[j], ref)
  {
    if |vs| == 1 then 0
    else
      var k := ArgMinL1(vs[..|vs| - 1], ref);
      assert forall j :: 0 <= j < |vs| - 1 ==> vs[..|vs| - 1][j] == vs[j];
      if L1(vs[|vs| - 1], ref) < L1(vs[k], ref) then |vs| - 1 else k
  }

  /** An L1 distance is never negative and is zero only between equal points. */
  lemma L1Zero(p: Vec3, q: Vec3)
    ensures L1(p, q) >= 0.0
    ensures L1(p, q) == 0.0 ==> p == q
  {
  }

  /** When the reference point is itself a vertex, its first occurrence is the nearest vertex. */
  lemma ArgMinAtReference(vs: seq<Vec3>, ref: Vec3, i: nat)
    requires i < |vs| && vs[i] == ref
    requires forall j :: 0 <= j < i ==> vs[j] != ref
    ensures ArgMinL1(vs, ref) == i
  {
    var k := ArgMinL1(vs, ref);
    L1Zero(vs[k], ref);
    L1Zero(vs[i], ref);
  }

  /**
   * The reference point of a part: (median x, max y, min z) for the trunk of
   * an ordinary car, (median x, min y, min z) for the trunk of a pickup, and
   * (median x, median y, min z) for every other part.
   */
  function Reference(part: string, vs: seq<Vec3>, isPickup: bool, median: seq<real> -> real): Vec3
    requires vs != []
  {
    if part == "trunk" && !isPickup then Vec3(median(Xs(vs)), Max(Ys(vs)), Min(Zs(vs)))
    else if part == "trunk" then Vec3(median(Xs(vs)), Min(Ys(vs)), Min(Zs(vs)))
    else Vec3(median(Xs(vs)), median(Ys(vs)), Min(Zs(vs)))
  }

  /** The hinge: the L1-nearest vertex to the reference, in engine coordinates. */
  function Hinge(part: string, vs: seq<Vec3>, isPickup: bool, median: seq<real> -> real): Vec3
    requires vs != []
  {
    ToEngine(vs[ArgMinL1(vs, Reference(part, vs, isPickup, median))])
  }

  /**
   * One part file's contribution to the metadata document. `isPickup` says
   * whether the model is a pickup; `median` is the median of a column.
   */
  function PartMetadata(part: string, vs: seq<Vec3>, isPickup: bool, median: seq<real> -> real): PartOutcome
  {
    if vs == [] then NoEntry
    else if part == "trunk" && !isPickup then Entry(Metadata(Hinge(part, vs, isPickup, median), Rotation(1, 0, 0)))
    else if part == "trunk" && isPickup then Entry(Metadata(Hinge(part, vs, isPickup, median), Rotation(-1, 0, 0)))
    else if part == "car_body" then NoEntry
    else if Contains(part, "right") then Entry(Metadata(Hinge(part, vs, isPickup, median), Rotation(0, 0, -1)))
    else if Contains(part, "left") then Entry(Metadata(Hinge(part, vs, isPickup, median), Rotation(0, 0, 1)))
    else Failure("ValueError")
  }

  /**
   * A part gets no entry exactly when its file has no vertex or it is the
   * body; an exception is raised exactly for a non-empty part that is
   * neither the trunk, the body, a right nor a left part. An entry's hinge
   * is a vertex of the part, nearest in L1 distance to the part's reference
   * point and the first such vertex, converted to engine coordinates.
   */
  lemma PartMetadataSpec(part: string, vs: seq<Vec3>, isPickup: bool, median: seq<real> -> real)
    ensures PartMetadata(part, vs, isPickup, median).NoEntry? <==> vs == [] || part == "car_body"
    ensures PartMetadata(part, vs, isPickup, median).Failure? <==>
      vs != [] && part != "trunk" && part != "car_body" && !Contains(part, "right") && !Contains(part, "left")
    ensures PartMetadata(part, vs, isPickup, median).Entry? ==>
      var m, ref := PartMetadata(part, vs, isPickup, median).meta, Reference(part, vs, isPickup, median);
      exists k :: 0 <= k < |vs| && m.hinge == ToEngine(vs[k])
        && (forall j :: 0 <= j < |vs| ==> L1(vs[k], ref) <= L1(vs[j], ref))
        && (forall j :: 0 <= j < k ==> L1(vs[k], ref) < L1(vs[j], ref))
  {
    if PartMetadata(part, vs, isPickup, median).Entry? {
      var k := ArgMinL1(vs, Reference(part, vs, isPickup, median));
      assert PartMetadata(part, vs, isPickup, median).meta.hinge == ToEngine(vs[k]);
    }
  }

  /** The rotation axis each kind of part receives. */
  lemma RotationSpec(part: string, vs: seq<Vec3>, isPickup: bool, median: seq<real> -> real)
    requires vs != []
    ensures part == "trunk" ==>
      PartMetadata(part, vs, isPickup, median)
        == Entry(Metadata(Hinge(part, vs, isPickup, median), if isPickup then Rotation(-1, 0, 0) else Rotation(1, 0, 0)))
    ensures part != "trunk" && part != "car_body" && Contains(part, "right") ==>
      PartMetadata(part, vs, isPickup, median).Entry? && PartMetadata(part, vs, isPickup, median).meta.rotation == Rotation(0, 0, -1)
    ensures part != "trunk" && part != "car_body" && !Contains(part, "right") && Contains(part, "left") ==>
      PartMetadata(part, vs, isPickup, median).Entry? && PartMetadata(part, vs, isPickup, median).meta.rotation == Rotation(0, 0, 1)
  {
  }

  /** The reference point of each kind of part. */
  lemma ReferenceSpec(part: string, vs: seq<Vec3>, isPickup: bool, median: seq<real> -> real)
    requires vs != []
    ensures var ref := Reference(part, vs, isPickup, median);
      && ref.x == median(Xs(vs))
      && ref.z == Min(Zs(vs)) && (forall i :: 0 <= i < |vs| ==> ref.z <= vs[i].z)
      && (part == "trunk" && !isPickup ==> ref.y == Max(Ys(vs)) && forall i :: 0 <= i < |vs| ==> vs[i].y <= ref.y)
      && (part == "trunk" && isPickup ==> ref.y == Min(Ys(vs)) && forall i :: 0 <= i < |vs| ==> ref.y <= vs[i].y)
      && (part != "trunk" ==> ref.y == median(Ys(vs)))
  {
  }

  /** The vertices of the trunk example below. */
  function TrunkVertices(): seq<Vec3>
  {
    [Vec3(1.0, 2.0, 0.0), Vec3(0.0, 5.0, -3.0), Vec3(-1.0, 1.0, 4.0)]
  }

  /** The reference point of the example trunk: median x, highest y and lowest z. */
  lemma TrunkReference(median: seq<real> -> real)
    requires median(Xs(TrunkVertices())) == 0.0
    ensures Reference("trunk", TrunkVertices(), false, median) == Vec3(0.0, 5.0, -3.0)
  {
    var vs := TrunkVertices();
    assert Ys(vs) == [2.0, 5.0, 1.0];
    assert Zs(vs) == [0.0, -3.0, 4.0];
  }

  /**
   * A trunk of an ordinary car whose highest vertex (0, 5, -3) is also the
   * lowest in z: that vertex is the hinge, (0, 3, 5) in engine coordinates.
   */
  lemma TrunkExample(vs: seq<Vec3>, median: seq<real> -> real)
    requires vs == TrunkVertices() && median(Xs(vs)) == 0.0
    ensures PartMetadata("trunk", vs, false, median) == Entry(Metadata(Vec3(0.0, 3.0, 5.0), Rotation(1, 0, 0)))
  {
    TrunkReference(median);
    ArgMinAtReference(vs, Vec3(0.0, 5.0, -3.0), 1);
  }

  /** A right door: rotation (0, 0, -1), and a hinge vertex (2, 1, -4) becomes (2, 4, 1). */
  lemma RightDoorExample(vs: seq<Vec3>, isPickup: bool, median: seq<real> -> real)
    requires vs != [] && vs[ArgMinL1(vs, Reference("back_right", vs, isPickup, median))] == Vec3(2.0, 1.0, -4.0)
    ensures PartMetadata("back_right", vs, isPickup, median) == Entry(Metadata(Vec3(2.0, 4.0, 1.0), Rotation(0, 0, -1)))
  {
    assert OccursAt("back_right", "right", 5);
    assert "back_right" != "trunk" && "back_right" != "car_body";
  }

  /** What one part file contributes, tagged with its part name. */
  datatype Contribution = Contribution(part: string, outcome: PartOutcome)

  /** The contributions of the part files, in file order. */
  function Outcomes(files: seq<PartFile>, isPickup: bool, median: seq<real> -> real): (r: seq<Contribution>)
    ensures |r| == |files|
    ensures forall i :: 0 <= i < |files| ==>
      r[i] == Contribution(files[i].part, PartMetadata(files[i].part, files[i].vertices, isPickup, median))
  {
    seq(|files|, i requires 0 <= i < |files| =>
      Contribution(files[i].part, PartMetadata(files[i].part, files[i].vertices, isPickup, median)))
  }

  /**
   * The document built from the contributions in order: the first exception
   * aborts it, an entry is stored under its part (a later one replaces an
   * earlier one), and no entry leaves the document as it is.
   */
  function Collect(cs: seq<Contribution>): Result<map<string, Metadata>>
  {
    if cs == [] then Ok(map[])
    else match Collect(cs[..|cs| - 1])
      case Err(e) => Err(e)
      case Ok(doc) =>
        var c := cs[|cs| - 1];
        match c.outcome
        case NoEntry => Ok(doc)
        case Entry(m) => Ok(doc[c.part := m])
        case Failure(e) => Err(e)
  }

  /** The metadata document of one model. */
  function MetadataDoc(files: seq<PartFile>, isPickup: bool, median: seq<real> -> real): Result<map<string, Metadata>>
  {
    Collect(Outcomes(files, isPickup, median))
  }

  /** One iteration of the part loop: adds contribution `i` to the document of the ones before it. */
  method AddContribution(doc: map<string, Metadata>, c: Contribution, ghost cs: seq<Contribution>, i: nat)
    returns (r: Result<map<string, Metadata>>)
    requires i < |cs| && cs[i] == c && Collect(cs[..i]) == Ok(doc)
    ensures r.Err? ==> Collect(cs) == r
    ensures r.Ok? ==> Collect(cs[..i + 1]) == r
  {
    assert cs[..i + 1][..i] == cs[..i];
    match c.outcome
    case Failure(e) =>
      CollectPrefixErr(cs, i + 1);
      return Err(e);
    case NoEntry =>
      return Ok(doc);
    case Entry(m) =>
      return Ok(doc[c.part := m]);
  }

  /** The part loop of `add_metadata` for one model. */
  method AddMetadata(files: seq<PartFile>, isPickup: bool, median: seq<real> -> real) returns (r: Result<map<string, Metadata>>)
    ensures r == MetadataDoc(files, isPickup, median)
  {
    ghost var cs := Outcomes(files, isPickup, median);
    var doc: map<string, Metadata> := map[];
    for i := 0 to |files|
      invariant Collect(cs[..i]) == Ok(doc)
    {
      var f := files[i];
      var c := Contribution(f.part, PartMetadata(f.part, f.vertices, isPickup, median));
      r := AddContribution(doc, c, cs, i);
      if r.Err? {
        return;
      }
      doc := r.value;
    }
    assert cs[..|files|] == cs;
    return Ok(doc);
  }

  /** Once a prefix of the contributions raises, so does the whole list. */
  lemma {:induction false} CollectPrefixErr(cs: seq<Contribution>, k: nat)
    requires k <= |cs| && Collect(cs[..k]).Err?
    ensures Collect(cs) == Collect(cs[..k])
    decreases |cs| - k
  {
    if k < |cs| {
      assert cs[..k + 1][..k] == cs[..k];
      CollectPrefixErr(cs, k + 1);
    } else {
      assert cs[..k] == cs;
    }
  }

  /** Contribution `i` is an entry for part `p`. */
  predicate EntryAt(cs: seq<Contribution>, i: int, p: string)
  {
    0 <= i < |cs| && cs[i].part == p && cs[i].outcome.Entry?
  }

  /** Contribution `i` is the entry `m` for part `p`, and no later contribution for `p` is an entry or raises. */
  predicate LastEntry(cs: seq<Contribution>, i: int, p: string, m: Metadata)
  {
    && 0 <= i < |cs| && cs[i] == Contribution(p, Entry(m))
    && forall j :: i < j < |cs| && cs[j].part == p ==> cs[j].outcome.NoEntry?
  }

  /** The document is built exactly when no contribution raises. */
  lemma {:induction false} CollectOk(cs: seq<Contribution>)
    ensures Collect(cs).Ok? <==> forall i :: 0 <= i < |cs| ==> !cs[i].outcome.Failure?
  {
    if cs != [] {
      var init := cs[..|cs| - 1];
      CollectOk(init);
      assert forall i :: 0 <= i < |init| ==> init[i] == cs[i];
    }
  }

  /** The keys of the document are the parts that receive some entry. */
  lemma {:induction false} CollectKeys(cs: seq<Contribution>)
    requires Collect(cs).Ok?
    ensures forall p :: p in Collect(cs).value <==> exists i :: EntryAt(cs, i, p)
  {
    if cs != [] {
      var n := |cs| - 1;
      var init := cs[..n];
      var c := cs[n];
      CollectKeys(init);
      var doc := Collect(cs).value;
      forall p
        ensures p in doc <==> exists i :: EntryAt(cs, i, p)
      {
        if p in doc {
          if p == c.part && c.outcome.Entry? {
            assert EntryAt(cs, n, p);
          } else {
            var i :| EntryAt(init, i, p);
            assert EntryAt(cs, i, p);
          }
        }
        if exists i :: EntryAt(cs, i, p) {
          var i :| EntryAt(cs, i, p);
          if i < n {
            assert EntryAt(init, i, p);
          }
        }
      }
    }
  }

  /** Each value of the document is the last entry its part receives. */
  lemma {:induction false} CollectValues(cs: seq<Contribution>)
    requires Collect(cs).Ok?
    ensures forall p :: p in Collect(cs).value ==> exists i :: LastEntry(cs, i, p, Collect(cs).value[p])
  {
    if cs != [] {
      var n := |cs| - 1;
      var init := cs[..n];
      var c := cs[n];
      CollectValues(init);
      var d0 := Collect(init).value;
      var doc := Collect(cs).value;
      forall p | p in doc
        ensures exists i :: LastEntry(cs, i, p, doc[p])
      {
        if p == c.part && c.outcome.Entry? {
          assert LastEntry(cs, n, p, doc[p]);
        } else {
          var i :| LastEntry(init, i, p, d0[p]);
          assert LastEntry(cs, i, p, doc[p]);
        }
      }
    }
  }

  /**
   * The document of a model is produced exactly when no part file raises;
   * its keys are the parts some file gives an entry, never the body; each
   * value is the entry of the last file of that part that has one.
   */
  lemma MetadataDocSpec(files: seq<PartFile>, isPickup: bool, median: seq<real> -> real)
    ensures MetadataDoc(files, isPickup, median).Ok? <==>
      forall i :: 0 <= i < |files| ==> !PartMetadata(files[i].part, files[i].vertices, isPickup, median).Failure?
    ensures MetadataDoc(files, isPickup, median).Ok? ==>
      var doc, cs := MetadataDoc(files, isPickup, median).value, Outcomes(files, isPickup, median);
      && "car_body" !in doc
      && (forall p :: p in doc <==> exists i :: EntryAt(cs, i, p))
      && (forall p :: p in doc ==> exists i :: LastEntry(cs, i, p, doc[p]))
  {
    var cs := Outcomes(files, isPickup, median);
    CollectOk(cs);
    if Collect(cs).Ok? {
      CollectKeys(cs);
      CollectValues(cs);
      if "car_body" in Collect(cs).value {
        var i :| EntryAt(cs, i, "car_body");
        PartMetadataSpec("car_body", files[i].vertices, isPickup, median);
      }
    }
  }
}
