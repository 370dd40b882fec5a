/**
 The log-key scanner: which attributes a log call passes, following the slices
 a file builds for its calls. Variables may append to themselves and refer to
 each other, so the slice definitions form a graph with cycles.
 */
module LogScan {
  import opened Prelude
  import opened Text

  /** A variable, as the parser's object resolution identifies it. */
  type Obj = nat

  /** The Go expressions the scanner tells apart; Other stands for every other form. */
  datatype Expr =
    | Paren(x: Expr)
    | Composite(elts: seq<Expr>)
    | Call(fn: Expr, args: seq<Expr>, ellipsis: bool)
    | Ident(name: string, obj: Option<Obj>)
    | Lit(isString: bool, text: string, pos: nat)
    | Selector(recv: Expr, sel: string)
    | Other(tag: nat)

  datatype Attr = Attr(key: string, val: Expr, pos: nat)

  /** x, y := a, b and var x, y = a, b alike. */
  datatype Assignment = Assignment(lhs: seq<Expr>, rhs: seq<Expr>)

  type Defs = map<Obj, seq<Expr>>

  const ATTR_CONSTRUCTORS: set<string> :=
    {"String", "Any", "Int", "Int64", "Uint64", "Float64", "Bool", "Time", "Duration", "Group"}

  function Unparen(e: Expr): Expr {
    if e.Paren? then Unparen(e.x) else e
  }

  predicate IsAppend(e: Expr) {
    e.Call? && e.fn.Ident? && e.fn.name == "append"
  }

  /** `isSliceValue`. */
  predicate IsSliceValue(v: Expr) {
    Unparen(v).Composite? || IsAppend(Unparen(v))
  }

  // -------------------------------------------------- the key/value walk

  predicate IsQuote(c: char) {
    c == '`' || c == '"'
  }

  function TrimQuotes(s: string): string {
    if s == [] then s
    else if IsQuote(s[0]) then TrimQuotes(s[1..])
    else if IsQuote(s[|s| - 1]) then TrimQuotes(s[..|s| - 1])
    else s
  }

  predicate IsString(e: Expr) {
    e.Lit? && e.isString
  }

  /** slog.String("key", v) and its siblings. */
  predicate IsAttrCall(e: Expr) {
    && e.Call? && e.fn.Selector? && e.fn.sel in ATTR_CONSTRUCTORS && |e.args| >= 2
    && e.fn.recv.Ident? && e.fn.recv.name == "slog" && IsString(e.args[0])
  }

  /** A string literal is a key for the next element; anything else takes one slot. */
  function Pairs(args: seq<Expr>): seq<Attr> {
    if args == [] then []
    else if IsString(args[0]) && |args| > 1 then
      [Attr(TrimQuotes(args[0].text), args[1], args[0].pos)] + Pairs(args[2..])
    else if IsAttrCall(args[0]) then
      [Attr(TrimQuotes(args[0].args[0].text), args[0].args[1], args[0].args[0].pos)] + Pairs(args[1..])
    else Pairs(args[1..])
  }

  lemma PairsStep(args: seq<Expr>, i: nat)
    requires i < |args|
    ensures Pairs(args[i..]) ==
            if IsString(args[i]) && i + 1 < |args| then
              [Attr(TrimQuotes(args[i].text), args[i + 1], args[i].pos)] + Pairs(args[i + 2..])
            else if IsAttrCall(args[i]) then
              [Attr(TrimQuotes(args[i].args[0].text), args[i].args[1], args[i].args[0].pos)] + Pairs(args[i + 1..])
            else Pairs(args[i + 1..])
  {
    var rest := args[i..];
    assert rest[1..] == args[i + 1..];
    if i + 1 < |args| {
      assert rest[2..] == args[i + 2..];
    }
  }

  /** `pairs`, as the index loop it is. */
  method WalkPairs(args: seq<Expr>) returns (out: seq<Attr>)
    ensures out == Pairs(args)
  {
    out := [];
    var i := 0;
    while i < |args|
      invariant 0 <= i <= |args|
      invariant out + Pairs(args[i..]) == Pairs(args)
    {
      var a := args[i];
      PairsStep(args, i);
      if IsString(a) && i + 1 < |args| {
        out := out + [Attr(TrimQuotes(a.text), args[i + 1], a.pos)];
        i := i + 2;
      } else {
        if IsAttrCall(a) {
          out := out + [Attr(TrimQuotes(a.args[0].text), a.args[1], a.args[0].pos)];
        }
        i := i + 1;
      }
    }
  }

  // -------------------------------------------------- the graph of slice values

  /** The attributes a slice value holds itself. */
  function Own(e: Expr): seq<Attr> {
    if e.Composite? then Pairs(e.elts)
    else if IsAppend(e) && e.args != [] then
      if e.ellipsis && |e.args| > 1 then Pairs(e.args[1..|e.args| - 1]) else Pairs(e.args[1..])
    else []
  }

  /** The slice expressions it takes elements from: append bases, spread arguments, definitions. */
  function Sources(defs: Defs, e: Expr): seq<Expr> {
    match e
    case Paren(x) => [x]
    case Ident(_, Some(o)) => if o in defs then defs[o] else []
    case Call(_, args, ellipsis) =>
      if !IsAppend(e) || args == [] then []
      else if ellipsis && |args| > 1 then [args[0], args[|args| - 1]] else [args[0]]
    case _ => []
  }

  ghost predicate IsPath(defs: Defs, p: seq<Expr>) {
    p != [] && forall i :: 0 <= i < |p| - 1 ==> p[i + 1] in Sources(defs, p[i])
  }

  /** Some slice value reachable from e holds the attribute. */
  ghost predicate Reaches(defs: Defs, e: Expr, a: Attr) {
    exists p :: PathTo(defs, e, a, p)
  }

  ghost predicate PathTo(defs: Defs, e: Expr, a: Attr, p: seq<Expr>) {
    IsPath(defs, p) && p[0] == e && a in Own(p[|p| - 1])
  }

  lemma OwnIsReached(defs: Defs, e: Expr)
    ensures forall a :: a in Own(e) ==> Reaches(defs, e, a)
  {
    forall a | a in Own(e) ensures Reaches(defs, e, a) {
      assert PathTo(defs, e, a, [e]);
    }
  }

  lemma SourceIsReached(defs: Defs, e: Expr, e': Expr)
    requires e' in Sources(defs, e)
    ensures forall a :: Reaches(defs, e', a) ==> Reaches(defs, e, a)
  {
    forall a | Reaches(defs, e', a) ensures Reaches(defs, e, a) {
      var p :| PathTo(defs, e', a, p);
      assert PathTo(defs, e, a, [e] + p);
    }
  }

  // -------------------------------------------------- what an expansion has covered

  ghost predicate Holds(out: seq<Attr>, attrs: seq<Attr>) {
    forall a :: a in attrs ==> a in out
  }

  /** Everything e holds is in out, up to the definitions of visited variables. */
  ghost predicate Covers(visited: set<Obj>, out: seq<Attr>, e: Expr) {
    && Holds(out, Own(e))
    && match e
       case Paren(x) => Covers(visited, out, x)
       case Ident(_, Some(o)) => o in visited
       case Call(_, args, ellipsis) =>
         if !IsAppend(e) || args == [] then true
         else Covers(visited, out, args[0]) && (ellipsis && |args| > 1 ==> Covers(visited, out, args[|args| - 1]))
       case _ => true
  }

  ghost predicate CoversDefs(defs: Defs, visited: set<Obj>, out: seq<Attr>, objs: set<Obj>) {
    forall o, d :: o in objs && o in defs && d in defs[o] ==> Covers(visited, out, d)
  }

  lemma {:induction false} CoversMore(visited: set<Obj>, visited': set<Obj>, out: seq<Attr>, out': seq<Attr>, e: Expr)
    requires Covers(visited, out, e) && visited <= visited' && Holds(out', out)
    ensures Covers(visited', out', e)
  {
    match e
    case Paren(x) => CoversMore(visited, visited', out, out', x);
    case Call(_, args, ellipsis) =>
      if IsAppend(e) && args != [] {
        CoversMore(visited, visited', out, out', args[0]);
        if ellipsis && |args| > 1 {
          CoversMore(visited, visited', out, out', args[|args| - 1]);
        }
      }
    case _ =>
  }

  lemma CoversDefsMore(defs: Defs, visited: set<Obj>, visited': set<Obj>, out: seq<Attr>, out': seq<Attr>,
                       objs: set<Obj>)
    requires CoversDefs(defs, visited, out, objs) && visited <= visited' && Holds(out', out)
    ensures CoversDefs(defs, visited', out', objs)
  {
    forall o, d | o in objs && o in defs && d in defs[o] ensures Covers(visited', out', d) {
      CoversMore(visited, visited', out, out', d);
    }
  }

  /** A covered expression whose visited variables are covered has everything reachable in out. */
  lemma {:induction false} CoveredPath(defs: Defs, visited: set<Obj>, out: seq<Attr>, p: seq<Expr>)
    requires IsPath(defs, p) && Covers(visited, out, p[0]) && CoversDefs(defs, visited, out, visited)
    ensures Covers(visited, out, p[|p| - 1])
  {
    if |p| > 1 {
      assert p[1] in Sources(defs, p[0]);
      CoveredPath(defs, visited, out, p[1..]);
    }
  }

  // -------------------------------------------------- the expansion

  class Expansion {
    const defs: Defs
    var visited: set<Obj>

    constructor (defs: Defs)
      ensures this.defs == defs && visited == {}
    {
      this.defs := defs;
      visited := {};
    }

    /** `expand`, with the visited set shared by the whole expansion. */
    method Expand(e: Expr) returns (out: seq<Attr>)
      modifies this`visited
      ensures old(visited) <= visited
      ensures Covers(visited, out, e)
      ensures CoversDefs(defs, visited, out, visited - old(visited))
      ensures forall a :: a in out ==> Reaches(defs, e, a)
      decreases |defs.Keys - visited|, e, 1
    {
      match e {
        case Paren(x) =>
          out := Expand(x);
          SourceIsReached(defs, e, x);
        case Composite(elts) =>
          out := WalkPairs(elts);
          OwnIsReached(defs, e);
        case Call(_, args, _) =>
          if IsAppend(e) && args != [] {
            out := ExpandAppend(e);
          } else {
            out := [];
          }
        case Ident(_, Some(o)) =>
          if o in visited {
            out := [];
          } else {
            out := ExpandDefs(e, o);
          }
        case _ =>
          out := [];
      }
    }

    /** An append: its base, the elements it adds, and a spread last argument. */
    method ExpandAppend(e: Expr) returns (out: seq<Attr>)
      requires IsAppend(e) && e.args != []
      modifies this`visited
      ensures old(visited) <= visited
      ensures Covers(visited, out, e)
      ensures CoversDefs(defs, visited, out, visited - old(visited))
      ensures forall a :: a in out ==> Reaches(defs, e, a)
      decreases |defs.Keys - visited|, e, 0
    {
      var base := Expand(e.args[0]);
      ghost var mid := visited;
      OwnIsReached(defs, e);
      SourceIsReached(defs, e, e.args[0]);
      var extra := e.args[1..];
      if e.ellipsis && |extra| > 0 {
        var added := WalkPairs(extra[..|extra| - 1]);
        assert extra[..|extra| - 1] == e.args[1..|e.args| - 1];
        var last := extra[|extra| - 1];
        Shrinks(defs.Keys, old(visited), mid);
        var spread := Expand(last);
        SourceIsReached(defs, e, last);
        out := base + added + spread;
        CoversMore(mid, visited, base, out, e.args[0]);
        CoversMore(visited, visited, spread, out, last);
        CoversDefsMore(defs, mid, visited, base, out, mid - old(visited));
        CoversDefsMore(defs, visited, visited, spread, out, visited - mid);
      } else {
        var added := WalkPairs(extra);
        out := base + added;
        CoversMore(mid, visited, base, out, e.args[0]);
        CoversDefsMore(defs, mid, visited, base, out, mid - old(visited));
      }
    }

    /** A variable seen for the first time: every slice value the file assigns to it. */
    method ExpandDefs(e: Expr, o: Obj) returns (out: seq<Attr>)
      requires e.Ident? && e.obj == Some(o) && o !in visited
      modifies this`visited
      ensures old(visited) <= visited
      ensures Covers(visited, out, e)
      ensures CoversDefs(defs, visited, out, visited - old(visited))
      ensures forall a :: a in out ==> Reaches(defs, e, a)
      decreases |defs.Keys - visited|, e, 0
    {
      visited := visited + {o};
      out := [];
      if o !in defs {
        return;
      }
      var ds := defs[o];
      Shrinks(defs.Keys, old(visited), old(visited) + {o});
      var i := 0;
      while i < |ds|
        invariant 0 <= i <= |ds|
        invariant old(visited) + {o} <= visited
        invariant forall j :: 0 <= j < i ==> Covers(visited, out, ds[j])
        invariant CoversDefs(defs, visited, out, visited - old(visited) - {o})
        invariant forall a :: a in out ==> Reaches(defs, e, a)
      {
        ghost var before, had := visited, out;
        Shrinks(defs.Keys, old(visited) + {o}, visited);
        var more := Expand(ds[i]);
        SourceIsReached(defs, e, ds[i]);
        out := out + more;
        forall j | 0 <= j < i ensures Covers(visited, out, ds[j]) {
          CoversMore(before, visited, had, out, ds[j]);
        }
        CoversMore(visited, visited, more, out, ds[i]);
        CoversDefsMore(defs, before, visited, had, out, before - old(visited) - {o});
        CoversDefsMore(defs, visited, visited, more, out, visited - before);
        i := i + 1;
      }
    }
  }

  lemma Shrinks(keys: set<Obj>, small: set<Obj>, big: set<Obj>)
    requires small <= big
    ensures |keys - big| <= |keys - small|
    ensures (exists o :: o in keys && o in big && o !in small) ==> |keys - big| < |keys - small|
  {
    CardinalityOfSubset(keys - big, keys - small);
  }

  lemma {:induction false} CardinalityOfSubset(a: set<Obj>, b: set<Obj>)
    requires a <= b
    ensures |a| <= |b|
    ensures a != b ==> |a| < |b|
    decreases a
  {
    if a != {} {
      var x :| x in a;
      CardinalityOfSubset(a - {x}, b - {x});
    }
  }

  /** A fresh expansion returns exactly the attributes of every reachable slice value, on any graph. */
  method ExpandSlice(defs: Defs, e: Expr) returns (out: seq<Attr>)
    ensures forall a :: a in out <==> Reaches(defs, e, a)
  {
    var x := new Expansion(defs);
    out := x.Expand(e);
    forall a | Reaches(defs, e, a) ensures a in out {
      var p :| PathTo(defs, e, a, p);
      assert x.visited - {} == x.visited;
      CoveredPath(defs, x.visited, out, p);
    }
  }

  // -------------------------------------------------- collecting the definitions

  /** What assigning v to l adds to the definitions of o. */
  function Recorded(l: Expr, v: Expr, o: Obj): seq<Expr> {
    if l.Ident? && l.obj == Some(o) && IsSliceValue(v) then [v] else []
  }

  /** The slice values, in order, that pairing lhs with rhs assigns to o. */
  function PairedTo(lhs: seq<Expr>, rhs: seq<Expr>, o: Obj): seq<Expr>
    requires |lhs| == |rhs|
  {
    if lhs == [] then []
    else
      var n := |lhs| - 1;
      PairedTo(lhs[..n], rhs[..n], o) + Recorded(lhs[n], rhs[n], o)
  }

  /** All slice values a file assigns to o; an assignment whose sides differ in length assigns none. */
  function AssignedTo(file: seq<Assignment>, o: Obj): seq<Expr> {
    if file == [] then []
    else
      var n := |file| - 1;
      AssignedTo(file[..n], o) + if |file[n].lhs| == |file[n].rhs| then PairedTo(file[n].lhs, file[n].rhs, o) else []
  }

  /** defs holds exactly the slice values of each variable. */
  ghost predicate DefsOf(file: seq<Assignment>, defs: Defs) {
    forall o :: (o in defs <==> AssignedTo(file, o) != []) && (o in defs ==> defs[o] == AssignedTo(file, o))
  }

  function DefsAt(defs: Defs, o: Obj): seq<Expr> {
    if o in defs then defs[o] else []
  }

  /** No variable is kept without a slice value. */
  ghost predicate NoneEmpty(defs: Defs) {
    forall o :: o in defs ==> defs[o] != []
  }

  method RecordOne(before: Defs, l: Expr, v: Expr) returns (defs: Defs)
    requires NoneEmpty(before)
    ensures NoneEmpty(defs)
    ensures forall o :: DefsAt(defs, o) == DefsAt(before, o) + Recorded(l, v, o)
  {
    defs := before;
    if l.Ident? && l.obj.Some? && IsSliceValue(v) {
      defs := defs[l.obj.value := DefsAt(defs, l.obj.value) + [v]];
    }
  }

  /** One assignment of `sliceDefs`. */
  method RecordAssignment(before: Defs, s: Assignment) returns (defs: Defs)
    requires NoneEmpty(before) && |s.lhs| == |s.rhs|
    ensures NoneEmpty(defs)
    ensures forall o :: DefsAt(defs, o) == DefsAt(before, o) + PairedTo(s.lhs, s.rhs, o)
  {
    defs := before;
    for i := 0 to |s.lhs|
      invariant NoneEmpty(defs)
      invariant forall o :: DefsAt(defs, o) == DefsAt(before, o) + PairedTo(s.lhs[..i], s.rhs[..i], o)
    {
      defs := RecordOne(defs, s.lhs[i], s.rhs[i]);
      assert s.lhs[..i + 1][..i] == s.lhs[..i] && s.rhs[..i + 1][..i] == s.rhs[..i];
    }
    assert s.lhs[..|s.lhs|] == s.lhs && s.rhs[..|s.rhs|] == s.rhs;
  }

  /** `sliceDefs`. */
  method SliceDefs(file: seq<Assignment>) returns (defs: Defs)
    ensures DefsOf(file, defs)
  {
    defs := map[];
    for k := 0 to |file|
      invariant NoneEmpty(defs)
      invariant forall o :: DefsAt(defs, o) == AssignedTo(file[..k], o)
    {
      assert file[..k + 1][..k] == file[..k];
      if |file[k].lhs| == |file[k].rhs| {
        defs := RecordAssignment(defs, file[k]);
      }
    }
    assert file[..|file|] == file;
    forall o ensures (o in defs <==> AssignedTo(file, o) != []) && (o in defs ==> defs[o] == AssignedTo(file, o)) {
      assert DefsAt(defs, o) == AssignedTo(file, o);
    }
  }

  // -------------------------------------------------- a log call

  /** `messageIndex`: where slog puts the message. */
  function MessageIndex(name: string): nat {
    if name == "Log" || name == "LogAttrs" then 2 else if HasSuffix(name, "Context") then 1 else 0
  }

  /** The arguments after the message. */
  function AfterMessage(name: string, args: seq<Expr>): seq<Expr> {
    if MessageIndex(name) + 1 >= |args| then [] else args[MessageIndex(name) + 1..]
  }

  /** An attribute a log call passes, by the meaning of its arguments. */
  ghost predicate Passes(defs: Defs, name: string, args: seq<Expr>, spread: bool, a: Attr) {
    var rest := AfterMessage(name, args);
    if !spread || rest == [] then a in Pairs(rest)
    else a in Pairs(rest[..|rest| - 1]) || Reaches(defs, rest[|rest| - 1], a)
  }

  /** `attrs` on the definitions of a file: exactly the attributes the call passes. */
  method CallAttrs(file: seq<Assignment>, name: string, args: seq<Expr>, spread: bool)
    returns (out: seq<Attr>, defs: Defs)
    ensures DefsOf(file, defs)
    ensures forall a :: a in out <==> Passes(defs, name, args, spread, a)
  {
    defs := SliceDefs(file);
    var i := MessageIndex(name) + 1;
    if i >= |args| {
      return [], defs;
    }
    var rest := args[i..];
    if !spread {
      out := WalkPairs(rest);
    } else {
      var direct := WalkPairs(rest[..|rest| - 1]);
      var held := ExpandSlice(defs, rest[|rest| - 1]);
      out := direct + held;
    }
  }

  /** The definitions of a file are determined by it, so the attributes of a call are too. */
  lemma DefsAreUnique(file: seq<Assignment>, d: Defs, d': Defs)
    requires DefsOf(file, d) && DefsOf(file, d')
    ensures d == d'
  {
    assert forall o :: o in d <==> o in d';
  }

  /** A slice that appends to itself is followed once and still yields every key ever appended to it. */
  lemma SelfAppendIsFollowed(x: Expr, first: seq<Expr>, added: seq<Expr>, defs: Defs, a: Attr)
    requires x.Ident? && x.obj.Some?
    requires defs == map[x.obj.value := [Composite(first), Call(Ident("append", None), [x] + added, false)]]
    ensures Reaches(defs, x, a) <==> a in Pairs(first) || a in Pairs(added)
  {
    var lit, app := Composite(first), Call(Ident("append", None), [x] + added, false);
    assert app.args[1..] == added;
    assert Sources(defs, x) == [lit, app];
    OwnIsReached(defs, lit);
    OwnIsReached(defs, app);
    SourceIsReached(defs, x, lit);
    SourceIsReached(defs, x, app);
    if Reaches(defs, x, a) {
      var p :| PathTo(defs, x, a, p);
      StaysWithin(defs, {x, lit, app}, p);
    }
  }

  lemma {:induction false} StaysWithin(defs: Defs, nodes: set<Expr>, p: seq<Expr>)
    requires IsPath(defs, p) && p[0] in nodes
    requires forall e, e' :: e in nodes && e' in Sources(defs, e) ==> e' in nodes
    ensures p[|p| - 1] in nodes
  {
    if |p| > 1 {
      assert p[1] in Sources(defs, p[0]);
      StaysWithin(defs, nodes, p[1..]);
    }
  }
}
