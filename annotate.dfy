/**
 * The annotation bookkeeping of the editor tool (annotation_tools/annotate.py):
 * the two annotation tables (part type and vertex index, part type and object
 * name) as sequences of records, saved by merge, de-duplication and sort,
 * pruned by filter, queried by part; the hide toggle over the scene objects
 * of one part; and the boolean parsing of the command line flags.
 */
module Annotate {
  import opened Wrappers
  import opened Text

  // ---------------------------------------------------------------------
  // Command line flags
  // ---------------------------------------------------------------------

  /** A flag value as argparse hands it over: already a bool, or the text typed. */
  datatype Arg = BoolArg(b: bool) | StrArg(s: string)

  const TrueWords: seq<string> := ["yes", "true", "t", "y", "1"]
  const FalseWords: seq<string> := ["no", "false", "f", "n", "0"]

  /** `str2bool`: a bool passes through; a word is read case-insensitively; anything else is an error. */
  function Str2Bool(v: Arg): (r: Result<bool>)
    ensures v.BoolArg? ==> r == Ok(v.b)
    ensures v.StrArg? ==> (r == Ok(true) <==> Lower(v.s) in TrueWords)
    ensures v.StrArg? ==> (r == Ok(false) <==> Lower(v.s) in FalseWords)
    ensures r.Err? <==> v.StrArg? && Lower(v.s) !in TrueWords && Lower(v.s) !in FalseWords
  {
    match v
    case BoolArg(b) => Ok(b)
    case StrArg(s) =>
      if Lower(s) in TrueWords then Ok(true)
      else if Lower(s) in FalseWords then Ok(false)
      else Err("ArgumentTypeError")
  }

  /** Letter case does not matter: a word and its lower-case form parse alike. */
  lemma Str2BoolIgnoresCase(s: string)
    ensures Str2Bool(StrArg(s)) == Str2Bool(StrArg(Lower(s)))
  {
    LowerIdempotent(s);
  }

  /** Python's `str(b)`. */
  function BoolText(b: bool): string
  {
    if b then "True" else "False"
  }

  /** A bool printed the Python way parses back to itself. */
  lemma Str2BoolRoundTrip(b: bool)
    ensures Str2Bool(StrArg(BoolText(b))) == Ok(b)
  {
    if b {
      assert Lower("True") == "true";
      assert "true" == TrueWords[1];
    } else {
      assert Lower("False") == "false";
      assert "false" == FalseWords[1];
      assert "false" !in TrueWords;
    }
  }

  // ---------------------------------------------------------------------
  // Records and their order
  // ---------------------------------------------------------------------

  /** The second column of a table: a vertex index or an object name. */
  datatype Key = Index(i: int) | Name(s: string)

  /** One row of an annotation table. */
  datatype Record = Record(partType: string, key: Key)

  /** Python's `<` on strings: lexicographic by code point, a proper prefix first. */
  predicate LexLess(a: string, b: string)
  {
    if a == [] then b != []
    else b != [] && (a[0] < b[0] || (a[0] == b[0] && LexLess(a[1..], b[1..])))
  }

  lemma {:induction false} LexIrreflexive(a: string)
    ensures !LexLess(a, a)
  {
    if a != [] {
      LexIrreflexive(a[1..]);
    }
  }

  lemma {:induction false} LexTransitive(a: string, b: string, c: string)
    requires LexLess(a, b) && LexLess(b, c)
    ensures LexLess(a, c)
  {
    if a != [] && a[0] == b[0] && b[0] == c[0] {
      LexTransitive(a[1..], b[1..], c[1..]);
    }
  }

  lemma {:induction false} LexTotal(a: string, b: string)
    requires a != b
    ensures LexLess(a, b) || LexLess(b, a)
  {
    if a != [] && b != [] && a[0] == b[0] {
      assert a == [a[0]] + a[1..] && b == [b[0]] + b[1..];
      LexTotal(a[1..], b[1..]);
    }
  }

  /** Vertex indices numerically, object names lexicographically. */
  predicate KeyLess(x: Key, y: Key)
  {
    match (x, y)
    case (Index(i), Index(j)) => i < j
    case (Name(s), Name(t)) => LexLess(s, t)
    case (Index(_), Name(_)) => true
    case (Name(_), Index(_)) => false
  }

  /** `sort_values(["part_type", key])`: by part type, then by key. */
  predicate RecordLess(x: Record, y: Record)
  {
    LexLess(x.partType, y.partType) || (x.partType == y.partType && KeyLess(x.key, y.key))
  }

  /** The record order is a strict total order. */
  lemma RecordOrder(x: Record, y: Record, z: Record)
    ensures !RecordLess(x, x)
    ensures RecordLess(x, y) && RecordLess(y, z) ==> RecordLess(x, z)
    ensures x != y ==> RecordLess(x, y) || RecordLess(y, x)
  {
    LexIrreflexive(x.partType);
    if x.key.Name? {
      LexIrreflexive(x.key.s);
    }
    if RecordLess(x, y) && RecordLess(y, z) {
      if LexLess(x.partType, y.partType) && LexLess(y.partType, z.partType) {
        LexTransitive(x.partType, y.partType, z.partType);
      }
      if x.key.Name? && y.key.Name? && z.key.Name? && LexLess(x.key.s, y.key.s) && LexLess(y.key.s, z.key.s) {
        LexTransitive(x.key.s, y.key.s, z.key.s);
      }
    }
    if x != y {
      if x.partType != y.partType {
        LexTotal(x.partType, y.partType);
      } else if x.key.Name? && y.key.Name? {
        LexTotal(x.key.s, y.key.s);
      }
    }
  }

  /** Sorted without repetition. */
  predicate StrictlySorted(t: seq<Record>)
  {
    forall i, j :: 0 <= i < j < |t| ==> RecordLess(t[i], t[j])
  }

  /** Two strictly sorted tables with the same records are the same table. */
  lemma {:induction false} SortedUnique(a: seq<Record>, b: seq<Record>)
    requires StrictlySorted(a) && StrictlySorted(b)
    requires forall x :: x in a <==> x in b
    ensures a == b
  {
    EmptyWhenNoMember(a);
    EmptyWhenNoMember(b);
    if a != [] {
      assert a[0] in b && b[0] in a;
      if a[0] != b[0] {
        var i :| 0 <= i < |b| && b[i] == a[0];
        var j :| 0 <= j < |a| && a[j] == b[0];
        RecordOrder(a[0], b[0], a[0]);
        assert false;
      }
      forall x
        ensures x in a[1..] <==> x in b[1..]
      {
        if x in a[1..] {
          var i :| 1 <= i < |a| && a[i] == x;
          RecordOrder(a[0], x, a[0]);
          assert x in b && x != b[0];
        }
        if x in b[1..] {
          var i :| 1 <= i < |b| && b[i] == x;
          RecordOrder(b[0], x, b[0]);
          assert x in a && x != a[0];
        }
      }
      SortedUnique(a[1..], b[1..]);
      assert a == [a[0]] + a[1..] && b == [b[0]] + b[1..];
    }
  }

  /** A sequence is empty exactly when nothing is in it. */
  lemma EmptyWhenNoMember(a: seq<Record>)
    ensures a == [] <==> forall x :: x !in a
  {
    if a != [] {
      assert a[0] in a;
    }
  }

  // ---------------------------------------------------------------------
  // Saving: concat, drop_duplicates, sort_values
  // ---------------------------------------------------------------------

  /** Puts one record into a strictly sorted table, unless it is there already. */
  function Insert(t: seq<Record>, x: Record): (r: seq<Record>)
    requires StrictlySorted(t)
    ensures StrictlySorted(r)
    ensures forall y :: y in r <==> y in t || y == x
  {
    if t == [] then [x]
    else if x == t[0] then t
    else if RecordLess(x, t[0]) then
      assert forall j :: 0 <= j < |t| ==> RecordLess(x, t[j]) by {
        forall j | 0 <= j < |t| ensures RecordLess(x, t[j]) {
          RecordOrder(x, t[0], t[j]);
        }
      }
      [x] + t
    else
      var rest := Insert(t[1..], x);
      assert forall y :: y in rest ==> RecordLess(t[0], y) by {
        forall y | y in rest ensures RecordLess(t[0], y) {
          RecordOrder(t[0], x, t[0]);
        }
      }
      assert t == [t[0]] + t[1..];
      [t[0]] + rest
  }

  /** The records of `xs`, without duplicates and in sorted order. */
  function SortedDistinct(xs: seq<Record>): (r: seq<Record>)
    ensures StrictlySorted(r)
    ensures forall y :: y in r <==> y in xs
  {
    if xs == [] then []
    else Insert(SortedDistinct(xs[..|xs| - 1]), xs[|xs| - 1])
  }

  /**
   * Saving a selection: the rows already on file (when the file exists) and
   * the selected rows, concatenated, de-duplicated and sorted. With no file
   * and an empty selection the empty frame has no columns to sort by, and
   * pandas raises `KeyError`.
   */
  function Save(file: Option<seq<Record>>, sel: seq<Record>): (r: Result<seq<Record>>)
    ensures r.Err? <==> file.None? && sel == []
    ensures r.Ok? ==> StrictlySorted(r.value)
    ensures r.Ok? ==> forall x :: x in r.value <==> (file.Some? && x in file.value) || x in sel
  {
    match file
    case None => if sel == [] then Err("KeyError") else Ok(SortedDistinct(sel))
    case Some(t) => Ok(SortedDistinct(t + sel))
  }

  /** The rows `save_selected_vertices` builds for the selected vertices. */
  function VertexRows(part: string, verts: seq<int>): (r: seq<Record>)
    ensures |r| == |verts| && forall i :: 0 <= i < |verts| ==> r[i] == Record(part, Index(verts[i]))
  {
    seq(|verts|, i requires 0 <= i < |verts| => Record(part, Index(verts[i])))
  }

  /** The rows `save_selected_objects_to_csv` builds for the selected objects. */
  function ObjectRows(part: string, names: seq<string>): (r: seq<Record>)
    ensures |r| == |names| && forall i :: 0 <= i < |names| ==> r[i] == Record(part, Name(names[i]))
  {
    seq(|names|, i requires 0 <= i < |names| => Record(part, Name(names[i])))
  }

  /** Saving the same selection a second time leaves the table as it is. */
  lemma SaveIdempotent(file: Option<seq<Record>>, sel: seq<Record>)
    requires Save(file, sel).Ok?
    ensures Save(Some(Save(file, sel).value), sel) == Save(file, sel)
  {
    var t := Save(file, sel).value;
    SortedUnique(Save(Some(t), sel).value, t);
  }

  /** Two selections saved one after the other give the same table in either order. */
  lemma SaveCommutes(t: seq<Record>, a: seq<Record>, b: seq<Record>)
    ensures Save(Some(Save(Some(t), a).value), b) == Save(Some(Save(Some(t), b).value), a)
  {
    SortedUnique(Save(Some(Save(Some(t), a).value), b).value, Save(Some(Save(Some(t), b).value), a).value);
  }

  // ---------------------------------------------------------------------
  // Removing: a boolean filter
  // ---------------------------------------------------------------------

  /** Keeps the rows that are not of part `part` with a key among `keys`, in table order. */
  function Prune(t: seq<Record>, part: string, keys: seq<Key>): (r: seq<Record>)
    ensures forall x :: x in r <==> x in t && !(x.partType == part && x.key in keys)
  {
    if t == [] then []
    else
      var x := t[|t| - 1];
      Prune(t[..|t| - 1], part, keys) + (if x.partType == part && x.key in keys then [] else [x])
  }

  /** The filter works row by row: pruning a concatenation prunes each part in place. */
  lemma {:induction false} PruneConcat(a: seq<Record>, b: seq<Record>, part: string, keys: seq<Key>)
    ensures Prune(a + b, part, keys) == Prune(a, part, keys) + Prune(b, part, keys)
    decreases |b|
  {
    if b == [] {
      assert a + b == a;
    } else {
      assert (a + b)[..|a + b| - 1] == a + b[..|b| - 1];
      PruneConcat(a, b[..|b| - 1], part, keys);
    }
  }

  /** The rows that survive keep their relative order, so a sorted table stays sorted. */
  lemma {:induction false} PruneSorted(t: seq<Record>, part: string, keys: seq<Key>)
    requires StrictlySorted(t)
    ensures StrictlySorted(Prune(t, part, keys))
  {
    if t != [] {
      var init := t[..|t| - 1];
      var x := t[|t| - 1];
      assert StrictlySorted(init);
      PruneSorted(init, part, keys);
      forall y | y in Prune(init, part, keys) ensures RecordLess(y, x) {
        var i :| 0 <= i < |init| && init[i] == y;
      }
    }
  }

  /** `remove_selected_vertices`: a missing table is left missing. */
  function RemoveVertices(file: Option<seq<Record>>, part: string, verts: seq<int>): (r: Option<seq<Record>>)
    ensures r.None? <==> file.None?
    ensures r.Some? ==> forall x :: x in r.value <==>
      x in file.value && !(x.partType == part && x.key.Index? && x.key.i in verts)
  {
    match file
    case None => None
    case Some(t) => Some(Prune(t, part, IndexKeys(verts)))
  }

  /** `remove_selected_objects_from_csv` reads the table unconditionally: no file raises. */
  function RemoveObjects(file: Option<seq<Record>>, part: string, names: seq<string>): (r: Result<seq<Record>>)
    ensures r.Err? <==> file.None?
    ensures r.Ok? ==> forall x :: x in r.value <==>
      x in file.value && !(x.partType == part && x.key.Name? && x.key.s in names)
  {
    match file
    case None => Err("FileNotFoundError")
    case Some(t) => Ok(Prune(t, part, NameKeys(names)))
  }

  function IndexKeys(verts: seq<int>): (r: seq<Key>)
    ensures forall k :: k in r <==> k.Index? && k.i in verts
  {
    var r := seq(|verts|, i requires 0 <= i < |verts| => Index(verts[i]));
    assert forall k :: k in r <==> k.Index? && k.i in verts by {
      forall k ensures k in r <==> k.Index? && k.i in verts {
        if k.Index? && k.i in verts {
          var j :| 0 <= j < |verts| && verts[j] == k.i;
          assert r[j] == k;
        }
      }
    }
    r
  }

  function NameKeys(names: seq<string>): (r: seq<Key>)
    ensures forall k :: k in r <==> k.Name? && k.s in names
  {
    var r := seq(|names|, i requires 0 <= i < |names| => Name(names[i]));
    assert forall k :: k in r <==> k.Name? && k.s in names by {
      forall k ensures k in r <==> k.Name? && k.s in names {
        if k.Name? && k.s in names {
          var j :| 0 <= j < |names| && names[j] == k.s;
          assert r[j] == k;
        }
      }
    }
    r
  }

  /**
   * Removing a selection right after saving it for the same part leaves the
   * table as pruning it alone would have: the save adds nothing that
   * survives the removal.
   */
  lemma SaveThenRemove(t: seq<Record>, part: string, verts: seq<int>)
    requires StrictlySorted(t)
    ensures RemoveVertices(Some(Save(Some(t), VertexRows(part, verts)).value), part, verts)
      == RemoveVertices(Some(t), part, verts)
  {
    var s := Save(Some(t), VertexRows(part, verts)).value;
    PruneSorted(s, part, IndexKeys(verts));
    PruneSorted(t, part, IndexKeys(verts));
    forall x
      ensures x in Prune(s, part, IndexKeys(verts)) <==> x in Prune(t, part, IndexKeys(verts))
    {
      if x in VertexRows(part, verts) {
        var i :| 0 <= i < |verts| && VertexRows(part, verts)[i] == x;
      }
    }
    SortedUnique(Prune(s, part, IndexKeys(verts)), Prune(t, part, IndexKeys(verts)));
  }

  // ---------------------------------------------------------------------
  // Selecting by part
  // ---------------------------------------------------------------------

  /** The keys of the rows of part `part`, in table order. */
  function KeysOf(t: seq<Record>, part: string): (r: seq<Key>)
    ensures forall k :: k in r <==> Record(part, k) in t
  {
    if t == [] then []
    else
      var x := t[|t| - 1];
      KeysOf(t[..|t| - 1], part) + (if x.partType == part then [x.key] else [])
  }

  /** Selection works row by row, so it keeps table order. */
  lemma {:induction false} KeysOfConcat(a: seq<Record>, b: seq<Record>, part: string)
    ensures KeysOf(a + b, part) == KeysOf(a, part) + KeysOf(b, part)
    decreases |b|
  {
    if b == [] {
      assert a + b == a;
    } else {
      assert (a + b)[..|a + b| - 1] == a + b[..|b| - 1];
      KeysOfConcat(a, b[..|b| - 1], part);
    }
  }

  /** From a sorted table, the keys of one part come out in increasing order without repeats. */
  lemma {:induction false} KeysOfSorted(t: seq<Record>, part: string)
    requires StrictlySorted(t)
    ensures forall i, j :: 0 <= i < j < |KeysOf(t, part)| ==> KeyLess(KeysOf(t, part)[i], KeysOf(t, part)[j])
  {
    if t != [] {
      var init := t[..|t| - 1];
      var x := t[|t| - 1];
      assert StrictlySorted(init);
      KeysOfSorted(init, part);
      var ks := KeysOf(init, part);
      if x.partType == part {
        forall i | 0 <= i < |ks| ensures KeyLess(ks[i], x.key) {
          assert ks[i] in ks;
          var j :| 0 <= j < |init| && init[j] == Record(part, ks[i]);
          LexIrreflexive(part);
        }
      }
    }
  }

  /** Every key of a vertex table is an index. */
  predicate VertexTable(t: seq<Record>)
  {
    forall i :: 0 <= i < |t| ==> t[i].key.Index?
  }

  /** Every key of an object table is a name. */
  predicate ObjectTable(t: seq<Record>)
  {
    forall i :: 0 <= i < |t| ==> t[i].key.Name?
  }

  /** `get_verts_from_csv`: the indices of one part in table order; no file raises. */
  function GetVerts(file: Option<seq<Record>>, part: string): (r: Result<seq<int>>)
    requires file.Some? ==> VertexTable(file.value)
    ensures r.Err? <==> file.None?
    ensures r.Ok? ==> |r.value| == |KeysOf(file.value, part)|
    ensures r.Ok? ==> forall i :: 0 <= i < |r.value| ==> KeysOf(file.value, part)[i] == Index(r.value[i])
    ensures r.Ok? ==> forall v :: v in r.value <==> Record(part, Index(v)) in file.value
  {
    match file
    case None => Err("FileNotFoundError")
    case Some(t) =>
      var ks := KeysOf(t, part);
      assert forall i :: 0 <= i < |ks| ==> ks[i].Index? by {
        forall i | 0 <= i < |ks| ensures ks[i].Index? {
          assert ks[i] in ks;
        }
      }
      var vs := seq(|ks|, i requires 0 <= i < |ks| => ks[i].i);
      assert forall v :: v in vs <==> Index(v) in ks by {
        forall v ensures v in vs <==> Index(v) in ks {
          if Index(v) in ks {
            var i :| 0 <= i < |ks| && ks[i] == Index(v);
            assert vs[i] == v;
          }
        }
      }
      Ok(vs)
  }

  /** After a save, the part's vertices are those on file before plus those selected, in increasing order. */
  lemma GetVertsAfterSave(t: seq<Record>, part: string, verts: seq<int>)
    requires VertexTable(t) && StrictlySorted(t)
    ensures var s := Save(Some(t), VertexRows(part, verts)).value;
      && VertexTable(s)
      && (forall v :: v in GetVerts(Some(s), part).value <==> Record(part, Index(v)) in t || v in verts)
      && (forall i, j :: 0 <= i < j < |GetVerts(Some(s), part).value| ==>
            GetVerts(Some(s), part).value[i] < GetVerts(Some(s), part).value[j])
  {
    var rows := VertexRows(part, verts);
    var s := Save(Some(t), rows).value;
    forall i | 0 <= i < |s| ensures s[i].key.Index? {
      assert s[i] in s;
      if s[i] in rows {
        var j :| 0 <= j < |verts| && rows[j] == s[i];
      } else {
        var j :| 0 <= j < |t| && t[j] == s[i];
      }
    }
    forall v ensures Record(part, Index(v)) in rows <==> v in verts {
      if Record(part, Index(v)) in rows {
        var j :| 0 <= j < |verts| && rows[j] == Record(part, Index(v));
      }
      if v in verts {
        var j :| 0 <= j < |verts| && verts[j] == v;
        assert rows[j] == Record(part, Index(v));
      }
    }
    KeysOfSorted(s, part);
    var ks := KeysOf(s, part);
    var vs := GetVerts(Some(s), part).value;
    forall i, j | 0 <= i < j < |vs| ensures vs[i] < vs[j] {
      assert ks[i] in ks && ks[j] in ks;
    }
  }

  // ---------------------------------------------------------------------
  // Toggling visibility of a part's objects
  // ---------------------------------------------------------------------

  /** A scene object's two editor flags, `hide` and `select`. */
  class SceneObject {
    var hidden: bool
    var selected: bool

    constructor (hidden: bool, selected: bool)
      ensures this.hidden == hidden && this.selected == selected
    {
      this.hidden := hidden;
      this.selected := selected;
    }
  }

  /** The object names listed for one part, in table order. */
  function ObjectNames(t: seq<Record>, part: string): (r: seq<string>)
    requires ObjectTable(t)
    ensures forall n :: n in r <==> Record(part, Name(n)) in t
  {
    var ks := KeysOf(t, part);
    assert forall i :: 0 <= i < |ks| ==> ks[i].Name? by {
      forall i | 0 <= i < |ks| ensures ks[i].Name? {
        assert ks[i] in ks;
      }
    }
    var ns := seq(|ks|, i requires 0 <= i < |ks| => ks[i].s);
    assert forall n :: n in ns <==> Name(n) in ks by {
      forall n ensures n in ns <==> Name(n) in ks {
        if Name(n) in ks {
          var i :| 0 <= i < |ks| && ks[i] == Name(n);
          assert ns[i] == n;
        }
      }
    }
    ns
  }

  /**
   * `toggle_hide_objects_from_csv`. With no table nothing happens. A listed
   * name the scene does not know raises `KeyError` in the first pass, before
   * anything changes. Otherwise, if any listed object is visible all listed
   * objects are hidden, else all are shown; every listed object ends
   * selected and no other object changes.
   */
  method ToggleHide(file: Option<seq<Record>>, part: string, objects: map<string, SceneObject>) returns (ok: bool)
    requires file.Some? ==> ObjectTable(file.value)
    modifies objects.Values
    ensures file.None? ==> ok
    ensures !ok || file.None? ==> forall o :: o in objects.Values ==> o.hidden == old(o.hidden) && o.selected == old(o.selected)
    ensures file.Some? ==> (ok <==> forall n :: n in ObjectNames(file.value, part) ==> n in objects)
    ensures ok && file.Some? ==>
      var names := ObjectNames(file.value, part);
      var toHide := exists n :: n in names && !old(objects[n].hidden);
      && (forall n :: n in names ==> objects[n].hidden == toHide && objects[n].selected)
      && (forall o :: o in objects.Values && (forall n :: n in names ==> objects[n] != o) ==>
            o.hidden == old(o.hidden) && o.selected == old(o.selected))
  {
    if file.None? {
      return true;
    }
    var names := ObjectNames(file.value, part);
    var toHide;
    ok, toHide := ScanListed(names, objects);
    if ok {
      MarkListed(names, objects, toHide);
    }
  }

  /**
   * The first pass of `toggle_hide_objects_from_csv`: every listed name must
   * be a scene object, and the objects are to be hidden when one of them is
   * visible.
   */
  method ScanListed(names: seq<string>, objects: map<string, SceneObject>) returns (ok: bool, toHide: bool)
    ensures ok <==> forall n :: n in names ==> n in objects
    ensures ok ==> (toHide <==> exists n :: n in names && !objects[n].hidden)
  {
    toHide := false;
    for i := 0 to |names|
      invariant forall j :: 0 <= j < i ==> names[j] in objects
      invariant toHide <==> exists j :: 0 <= j < i && !objects[names[j]].hidden
    {
      if names[i] !in objects {
        return false, toHide;
      }
      if objects[names[i]].hidden == false {
        toHide := true;
      }
    }
    assert toHide <==> exists n :: n in names && !objects[n].hidden by {
      if exists n :: n in names && !objects[n].hidden {
        var n :| n in names && !objects[n].hidden;
        var j :| 0 <= j < |names| && names[j] == n;
      }
    }
    return true, toHide;
  }

  /** The second pass: every listed object gets the new visibility and is selected; nothing else changes. */
  method MarkListed(names: seq<string>, objects: map<string, SceneObject>, toHide: bool)
    requires forall n :: n in names ==> n in objects
    modifies objects.Values
    ensures forall n :: n in names ==> objects[n].hidden == toHide && objects[n].selected
    ensures forall o :: o in objects.Values && (forall n :: n in names ==> objects[n] != o) ==>
      o.hidden == old(o.hidden) && o.selected == old(o.selected)
  {
    for i := 0 to |names|
      invariant forall j :: 0 <= j < i ==> objects[names[j]].hidden == toHide && objects[names[j]].selected
      invariant forall o :: o in objects.Values && (forall j :: 0 <= j < i ==> objects[names[j]] != o) ==>
        o.hidden == old(o.hidden) && o.selected == old(o.selected)
    {
      objects[names[i]].hidden := toHide;
      objects[names[i]].selected := true;
    }
  }
}
