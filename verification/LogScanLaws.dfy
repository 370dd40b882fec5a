/**
 The log scanner, spelled out: where a log call's attributes start, which
 elements of an argument list are keys, what each form of slice expression
 holds, and which assignments count.
 */
module LogScanLaws {
  import opened Prelude
  import opened Text
  import opened LogScan

  // -------------------------------------------------- where the attributes of a call start

  /** What the arguments after the message pass: the pairs they spell, and with a spread what the last one holds. */
  ghost predicate RestPasses(defs: Defs, rest: seq<Expr>, spread: bool, a: Attr) {
    if !spread || rest == [] then a in Pairs(rest)
    else a in Pairs(rest[..|rest| - 1]) || Reaches(defs, rest[|rest| - 1], a)
  }

  /** A Context method takes a context and the message first. */
  lemma ContextCallsPass(defs: Defs, name: string, ctx: Expr, msg: Expr, rest: seq<Expr>, spread: bool, a: Attr)
    requires HasSuffix(name, "Context")
    ensures Passes(defs, name, [ctx, msg] + rest, spread, a) <==> RestPasses(defs, rest, spread, a)
  {
    ContextIsNotLog(name);
    assert ([ctx, msg] + rest)[2..] == rest;
  }

  lemma ContextIsNotLog(name: string)
    requires HasSuffix(name, "Context")
    ensures name != "Log" && name != "LogAttrs"
  {
    var last := "Context"[6];
    assert name[|name| - 7..][6] == last;
    assert name[|name| - 1] == 't';
    assert |"Log"| == 3 && "LogAttrs"[7] == 's';
  }

  /** Log and LogAttrs take a context, a level and the message first. */
  lemma LogCallsPass(defs: Defs, name: string, ctx: Expr, level: Expr, msg: Expr, rest: seq<Expr>, spread: bool,
                     a: Attr)
    requires name == "Log" || name == "LogAttrs"
    ensures Passes(defs, name, [ctx, level, msg] + rest, spread, a) <==> RestPasses(defs, rest, spread, a)
  {
    assert ([ctx, level, msg] + rest)[3..] == rest;
  }

  /** Every other method takes the message first. */
  lemma PlainCallsPass(defs: Defs, name: string, msg: Expr, rest: seq<Expr>, spread: bool, a: Attr)
    requires name != "Log" && name != "LogAttrs" && !HasSuffix(name, "Context")
    ensures Passes(defs, name, [msg] + rest, spread, a) <==> RestPasses(defs, rest, spread, a)
  {
    assert ([msg] + rest)[1..] == rest;
  }

  /** A call without a message passes nothing. */
  lemma EmptyCallsPassNothing(defs: Defs, name: string, spread: bool, a: Attr)
    ensures !Passes(defs, name, [], spread, a)
  {
  }

  // -------------------------------------------------- which elements are keys

  /** A string literal with something after it is the key of what comes next. */
  lemma StringIsAKey(text: string, pos: nat, v: Expr, rest: seq<Expr>)
    ensures Pairs([Lit(true, text, pos), v] + rest) == [Attr(TrimQuotes(text), v, pos)] + Pairs(rest)
  {
    assert ([Lit(true, text, pos), v] + rest)[2..] == rest;
  }

  /** A string literal at the end is a key without a value, and is passed over. */
  lemma LastStringIsNoKey(text: string, pos: nat)
    ensures Pairs([Lit(true, text, pos)]) == []
  {
  }

  /** The attribute constructors of slog, with a key and at least a value. */
  predicate IsConstructor(e: Expr) {
    && e.Call? && e.fn.Selector? && e.fn.recv.Ident? && e.fn.recv.name == "slog"
    && (|| e.fn.sel == "String" || e.fn.sel == "Any" || e.fn.sel == "Int" || e.fn.sel == "Int64" || e.fn.sel == "Uint64"
        || e.fn.sel == "Float64" || e.fn.sel == "Bool" || e.fn.sel == "Time" || e.fn.sel == "Duration"
        || e.fn.sel == "Group")
    && |e.args| >= 2 && e.args[0].Lit? && e.args[0].isString
  }

  /** A constructor call is one attribute, under its own key. */
  lemma ConstructorIsAnAttribute(e: Expr, rest: seq<Expr>)
    requires IsConstructor(e)
    ensures Pairs([e] + rest) == [Attr(TrimQuotes(e.args[0].text), e.args[1], e.args[0].pos)] + Pairs(rest)
  {
    assert ([e] + rest)[1..] == rest;
  }

  /** Anything else takes one place and gives nothing. */
  lemma OthersGiveNothing(e: Expr, rest: seq<Expr>)
    requires !(e.Lit? && e.isString) && !IsConstructor(e)
    ensures Pairs([e] + rest) == Pairs(rest)
  {
    assert ([e] + rest)[1..] == rest;
  }

  /** The key of a quoted literal is what stands between the quotes. */
  lemma KeysLoseTheirQuotes(s: string, quote: char)
    requires quote == '"' || quote == '`'
    requires s == "" || (s[0] != '"' && s[0] != '`' && s[|s| - 1] != '"' && s[|s| - 1] != '`')
    ensures TrimQuotes([quote] + s + [quote]) == s
  {
    assert ([quote] + s + [quote])[1..] == s + [quote];
    TrimFront(quote, s + [quote]);
    assert [quote] + (s + [quote]) == [quote] + s + [quote];
    if s == "" {
      TrimFront(quote, "");
      assert s + [quote] == [quote] + "";
    } else {
      assert (s + [quote])[..|s|] == s;
      TrimBack(s, quote);
    }
  }

  lemma TrimFront(quote: char, s: string)
    requires IsQuote(quote)
    ensures TrimQuotes([quote] + s) == TrimQuotes(s)
  {
    assert ([quote] + s)[1..] == s;
  }

  lemma TrimBack(s: string, quote: char)
    requires IsQuote(quote) && s != "" && !IsQuote(s[0]) && !IsQuote(s[|s| - 1])
    ensures TrimQuotes(s + [quote]) == s
  {
    assert (s + [quote])[..|s|] == s;
  }

  // -------------------------------------------------- what an expression holds

  /** An expression holds its own attributes and those of its sources, and nothing else. */
  lemma ReachesUnfolds(defs: Defs, e: Expr, a: Attr)
    ensures Reaches(defs, e, a) <==>
            a in Own(e) || exists i :: 0 <= i < |Sources(defs, e)| && Reaches(defs, Sources(defs, e)[i], a)
  {
    var sources := Sources(defs, e);
    OwnIsReached(defs, e);
    if i :| 0 <= i < |sources| && Reaches(defs, sources[i], a) {
      SourceIsReached(defs, e, sources[i]);
    }
    if Reaches(defs, e, a) {
      var p :| PathTo(defs, e, a, p);
      if |p| > 1 {
        assert p[1] in Sources(defs, p[0]);
        var i :| 0 <= i < |sources| && sources[i] == p[1];
        assert PathTo(defs, p[1], a, p[1..]);
      }
    }
  }

  /** A composite literal holds the pairs of its elements. */
  lemma CompositeHolds(defs: Defs, elts: seq<Expr>, a: Attr)
    ensures Reaches(defs, Composite(elts), a) <==> a in Pairs(elts)
  {
    ReachesUnfolds(defs, Composite(elts), a);
  }

  /** Parentheses change nothing. */
  lemma ParenHolds(defs: Defs, e: Expr, a: Attr)
    ensures Reaches(defs, Paren(e), a) <==> Reaches(defs, e, a)
  {
    ReachesUnfolds(defs, Paren(e), a);
    assert Sources(defs, Paren(e))[0] == e;
  }

  /** An append holds what its base holds and the pairs of what it adds. */
  lemma AppendHolds(defs: Defs, obj: Option<Obj>, base: Expr, added: seq<Expr>, a: Attr)
    ensures Reaches(defs, Call(Ident("append", obj), [base] + added, false), a) <==>
            Reaches(defs, base, a) || a in Pairs(added)
  {
    var e := Call(Ident("append", obj), [base] + added, false);
    ReachesUnfolds(defs, e, a);
    assert e.args[1..] == added && Sources(defs, e) == [base];
    assert Sources(defs, e)[0] == base;
  }

  /** With a spread it holds what its last argument holds as well. */
  lemma SpreadHolds(defs: Defs, obj: Option<Obj>, base: Expr, added: seq<Expr>, last: Expr, a: Attr)
    ensures Reaches(defs, Call(Ident("append", obj), [base] + added + [last], true), a) <==>
            Reaches(defs, base, a) || a in Pairs(added) || Reaches(defs, last, a)
  {
    var e := Call(Ident("append", obj), [base] + added + [last], true);
    assert e.args[1..|e.args| - 1] == added;
    assert Own(e) == Pairs(added);
    assert Sources(defs, e) == [base, last];
    TwoSources(defs, e, base, last, a);
  }

  lemma TwoSources(defs: Defs, e: Expr, x: Expr, y: Expr, a: Attr)
    requires Sources(defs, e) == [x, y]
    ensures Reaches(defs, e, a) <==> a in Own(e) || Reaches(defs, x, a) || Reaches(defs, y, a)
  {
    ReachesUnfolds(defs, e, a);
    assert Sources(defs, e)[0] == x && Sources(defs, e)[1] == y;
  }

  /** A variable holds what any slice value assigned to it holds. */
  lemma VariableHolds(defs: Defs, name: string, o: Obj, a: Attr)
    ensures Reaches(defs, Ident(name, Some(o)), a) <==>
            o in defs && exists i :: 0 <= i < |defs[o]| && Reaches(defs, defs[o][i], a)
  {
    var e := Ident(name, Some(o));
    ReachesUnfolds(defs, e, a);
    var sources := Sources(defs, e);
    assert sources == if o in defs then defs[o] else [];
    if o in defs {
      if i :| 0 <= i < |defs[o]| && Reaches(defs, defs[o][i], a) {
        assert Reaches(defs, sources[i], a);
      }
    }
  }

  /** Any other expression holds nothing the scanner can see. */
  lemma OthersHoldNothing(defs: Defs, e: Expr, a: Attr)
    requires !e.Composite? && !e.Paren? && (e.Ident? ==> e.obj.None?)
    requires e.Call? ==> !(e.fn.Ident? && e.fn.name == "append") || e.args == []
    ensures !Reaches(defs, e, a)
  {
    ReachesUnfolds(defs, e, a);
  }

  // -------------------------------------------------- which assignments count

  /** A slice value: a composite literal or an append, in any number of parentheses. */
  lemma SliceValuesAre(v: Expr)
    ensures IsSliceValue(v) <==>
            match v
            case Composite(_) => true
            case Call(fn, _, _) => fn.Ident? && fn.name == "append"
            case Paren(x) => IsSliceValue(x)
            case _ => false
  {
  }

  /** The assignment pairs v with a variable that is o. */
  ghost predicate Assigns(s: Assignment, o: Obj, v: Expr) {
    && |s.lhs| == |s.rhs|
    && exists i :: 0 <= i < |s.lhs| && s.lhs[i].Ident? && s.lhs[i].obj == Some(o) && s.rhs[i] == v && IsSliceValue(v)
  }

  lemma {:induction false} PairedMeans(lhs: seq<Expr>, rhs: seq<Expr>, o: Obj, v: Expr)
    requires |lhs| == |rhs|
    ensures v in PairedTo(lhs, rhs, o) <==>
            exists i :: 0 <= i < |lhs| && lhs[i].Ident? && lhs[i].obj == Some(o) && rhs[i] == v && IsSliceValue(v)
  {
    if lhs != [] {
      var n := |lhs| - 1;
      PairedMeans(lhs[..n], rhs[..n], o, v);
      assert forall i :: 0 <= i < n ==> lhs[..n][i] == lhs[i] && rhs[..n][i] == rhs[i];
    }
  }

  /** The definitions of a variable are exactly the slice values some balanced assignment of the file gives it. */
  lemma {:induction false} AssignedMeans(file: seq<Assignment>, o: Obj, v: Expr)
    ensures v in AssignedTo(file, o) <==> exists k :: 0 <= k < |file| && Assigns(file[k], o, v)
  {
    if file != [] {
      var n := |file| - 1;
      AssignedMeans(file[..n], o, v);
      assert forall k :: 0 <= k < n ==> file[..n][k] == file[k];
      if |file[n].lhs| == |file[n].rhs| {
        PairedMeans(file[n].lhs, file[n].rhs, o, v);
      }
    }
  }
}
