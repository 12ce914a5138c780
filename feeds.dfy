/** The feed-set argument of the example clients: whitespace-separated tokens
    `N`, `N-M`, `!N` and `!N-M`. Tokens without `!` add feed ids, tokens with
    `!` remove them; the result lists what is added and not removed, in
    ascending order and without repetition. A token that is neither a number
    nor a range stops the parse with an error naming it. */
module Feeds {
  import opened Wire
  import Fix

  /** The parsed feed list (`Feeds { feeds: Vec<u32> }`). */
  datatype Feeds = Feeds(ids: seq<u32>)

  // ---------------------------------------------------------------------
  // Numbers: `str::parse::<u32>`

  predicate IsDigit(c: char)
  {
    '0' <= c <= '9'
  }

  predicate AllDigits(s: string)
  {
    s == [] || (IsDigit(s[|s| - 1]) && AllDigits(s[..|s| - 1]))
  }

  /** The value of a string of decimal digits, most significant first. */
  function Value(s: string): nat
    requires AllDigits(s)
  {
    if s == [] then 0 else Value(s[..|s| - 1]) * 10 + (s[|s| - 1] as int - '0' as int)
  }

  /** `u32::from_str`: an optional `+`, then one or more ASCII digits whose
      value fits in 32 bits. Leading zeros are accepted; a sign alone, a `-`
      and anything else are refused. */
  function ParseU32(a: string): Option<u32>
  {
    var digits := if a != [] && a[0] == '+' then a[1..] else a;
    if digits == [] || !AllDigits(digits) then None
    else if Value(digits) < U32_LIMIT then Some(Value(digits))
    else None
  }

  /** A `u32` has no `-` anywhere in it: the sign is refused. */
  lemma NumberHasNoDash(a: string)
    ensures ParseU32(a).Some? ==> '-' !in a
  {
    var digits := if a != [] && a[0] == '+' then a[1..] else a;
    if digits != [] && AllDigits(digits) {
      AllDigitsIndex(digits);
      if a[0] == '+' {
        assert a == [a[0]] + digits;
      }
    }
  }

  lemma {:induction false} AllDigitsIndex(s: string)
    requires AllDigits(s)
    ensures forall i :: 0 <= i < |s| ==> IsDigit(s[i])
  {
    if s != [] {
      AllDigitsIndex(s[..|s| - 1]);
      assert forall i :: 0 <= i < |s| - 1 ==> s[i] == s[..|s| - 1][i];
    }
  }

  /** The shortest decimal spelling of `n`, as characters: the feed
      arguments are strings, while `Fix.Dec` prints the same digits as the
      bytes of a FIX message. `RenderDec` states that the two agree. */
  function Render(n: nat): (r: string)
    ensures r != [] && AllDigits(r) && Value(r) == n
    ensures r[0] != '0' || n == 0
  {
    var d := ['0' + (n % 10) as char];
    if n < 10 then d
    else
      var h := Render(n / 10);
      assert (h + d)[..|h + d| - 1] == h;
      h + d
  }

  /** The characters of `Render(n)` are the bytes of `Fix.Dec(n)`. */
  lemma {:induction false} RenderDec(n: nat)
    ensures Fix.Ascii(Render(n)) == Fix.Dec(n)
  {
    var d := ['0' + (n % 10) as char];
    assert Fix.Ascii(d) == [0x30 + n % 10];
    if n >= 10 {
      RenderDec(n / 10);
      Fix.AsciiAppend(Render(n / 10), d);
    }
  }

  /** The numbers of the examples below spelt out. */
  lemma SmallRenders()
    ensures Render(0) == "0" && Render(1) == "1" && Render(2) == "2" && Render(3) == "3"
    ensures Render(4) == "4" && Render(5) == "5"
  {
  }

  /** The larger numbers of the examples spelt out. */
  lemma MoreRenders()
    ensures Render(7) == "7" && Render(8) == "8" && Render(9) == "9" && Render(13) == "13"
  {
  }

  lemma {:induction false} DigitsAppend(s: string, t: string)
    requires AllDigits(s) && AllDigits(t)
    ensures AllDigits(s + t)
    decreases |t|
  {
    if t == [] {
      assert s + t == s;
    } else {
      DigitsAppend(s, t[..|t| - 1]);
      assert (s + t)[..|s + t| - 1] == s + t[..|t| - 1];
    }
  }

  /** Parsing reads back any rendered 32-bit number, with or without `+`. */
  lemma RenderRoundTrip(n: u32)
    ensures ParseU32(Render(n)) == Some(n)
    ensures ParseU32("+" + Render(n)) == Some(n)
  {
    AllDigitsIndex(Render(n));
    var a := "+" + Render(n);
    assert a[0] == '+' && a[1..] == Render(n);
    assert ParseU32(a) == Some(Value(a[1..]));
  }

  // ---------------------------------------------------------------------
  // Tokens

  /** Index of the first `-` in `a`, as `splitn(2, '-')` finds it. */
  function Dash(a: string): (r: Option<nat>)
    ensures r.Some? ==> r.value < |a|
  {
    if a == [] then None
    else if a[0] == '-' then Some(0)
    else
      match Dash(a[1..])
      case None => None
      case Some(i) => Some(i + 1)
  }

  /** `Dash` finds the first `-`, and finds none only when there is none. */
  lemma {:induction false} DashFinds(a: string)
    ensures Dash(a).None? <==> '-' !in a
    ensures Dash(a).Some? ==> a[Dash(a).value] == '-' && '-' !in a[..Dash(a).value]
  {
    if a != [] && a[0] != '-' {
      DashFinds(a[1..]);
      assert a == [a[0]] + a[1..];
      if Dash(a[1..]).Some? {
        var i := Dash(a[1..]).value;
        assert a[..i + 1] == [a[0]] + a[1..][..i];
      }
    }
  }

  /** `parse_range`: the text before the first `-` and the text after it are
      both numbers. A token without `-` is not a range. */
  function ParseRange(a: string): Option<(u32, u32)>
  {
    match Dash(a)
    case None => None
    case Some(i) =>
      match (ParseU32(a[..i]), ParseU32(a[i + 1..]))
      case (Some(start), Some(end)) => Some((start, end))
      case _ => None
  }

  /** The ids `lo..hi`, upper bound excluded. */
  function Between(lo: u32, hi: int): (r: set<u32>)
    requires hi <= U32_LIMIT
    ensures forall x: u32 :: x in r <==> lo <= x < hi
    decreases hi - lo
  {
    if hi <= lo then {} else Between(lo, hi - 1) + {hi - 1}
  }

  /** The ids `start..=end`; empty when `start > end`. */
  function Span(start: u32, end: u32): (r: set<u32>)
    ensures forall x: u32 :: x in r <==> start <= x <= end
  {
    Between(start, end + 1)
  }

  /** The ids a token (already stripped of `!`) stands for, or `None` when it
      is neither a number nor a range (`parse_and_push`). */
  function TokenIds(arg: string): Option<set<u32>>
  {
    match ParseU32(arg)
    case Some(n) => Some({n})
    case None =>
      match ParseRange(arg)
      case Some((start, end)) => Some(Span(start, end))
      case None => None
  }

  predicate Excluding(arg: string)
  {
    arg != [] && arg[0] == '!'
  }

  /** The token with its `!` taken off. */
  function Stripped(arg: string): string
  {
    if Excluding(arg) then arg[1..] else arg
  }

  /** The error `parse_and_push` bails out with; its message reads
      `Invalid argument: ` followed by the token. */
  datatype ParseError = InvalidArgument(arg: string)

  /** A valid token: whether it had a `!`, and the ids it stands for. */
  datatype Token = Token(excluding: bool, ids: set<u32>)

  /** One argument read as a token, or the error that names it. */
  function ParseToken(arg: string): Result<Token, ParseError>
  {
    match TokenIds(Stripped(arg))
    case None => Err(InvalidArgument(Stripped(arg)))
    case Some(ids) => Ok(Token(Excluding(arg), ids))
  }

  /** Each argument read on its own. */
  function Parsed(args: seq<string>): (r: seq<Result<Token, ParseError>>)
    ensures |r| == |args|
  {
    seq(|args|, i requires 0 <= i < |args| => ParseToken(args[i]))
  }

  /** All the tokens when every result is one, else the first error: the
      order in which `from_strs` meets its arguments. */
  function Collect(rs: seq<Result<Token, ParseError>>): Result<seq<Token>, ParseError>
  {
    if rs == [] then Ok([])
    else
      match Collect(rs[..|rs| - 1])
      case Err(e) => Err(e)
      case Ok(toks) =>
        match rs[|rs| - 1]
        case Err(e) => Err(e)
        case Ok(t) => Ok(toks + [t])
  }

  /** Collecting succeeds exactly when every result is a token, and then
      keeps them all in order; otherwise it gives the first error. */
  lemma {:induction false} CollectAll(rs: seq<Result<Token, ParseError>>)
    ensures Collect(rs).Ok? <==> forall i :: 0 <= i < |rs| ==> rs[i].Ok?
    ensures Collect(rs).Ok? ==>
      |Collect(rs).value| == |rs| &&
      (forall i :: 0 <= i < |rs| ==> rs[i] == Ok(Collect(rs).value[i]))
    ensures Collect(rs).Err? ==>
      exists i :: (0 <= i < |rs| && rs[i].Err? &&
        (forall j :: 0 <= j < i ==> rs[j].Ok?) &&
        Collect(rs).error == rs[i].error)
  {
    if rs != [] {
      var init := rs[..|rs| - 1];
      CollectAll(init);
      assert forall i :: 0 <= i < |init| ==> init[i] == rs[i];
    }
  }

  /** Collecting two lists one after the other: the first error, or the
      tokens of both. */
  lemma {:induction false} CollectConcat(a: seq<Result<Token, ParseError>>, b: seq<Result<Token, ParseError>>)
    ensures Collect(a).Err? ==> Collect(a + b) == Collect(a)
    ensures Collect(a).Ok? && Collect(b).Err? ==> Collect(a + b) == Collect(b)
    ensures Collect(a).Ok? && Collect(b).Ok? ==> Collect(a + b) == Ok(Collect(a).value + Collect(b).value)
    decreases |b|
  {
    if b == [] {
      assert a + b == a;
      if Collect(a).Ok? {
        assert Collect(a).value + [] == Collect(a).value;
      }
    } else {
      var init := b[..|b| - 1];
      assert (a + b)[..|a + b| - 1] == a + init;
      assert (a + b)[|a + b| - 1] == b[|b| - 1];
      CollectConcat(a, init);
      if Collect(a).Ok? && Collect(init).Ok? && b[|b| - 1].Ok? {
        var ta, ti, t := Collect(a).value, Collect(init).value, b[|b| - 1].value;
        assert ta + (ti + [t]) == (ta + ti) + [t];
      }
    }
  }

  lemma ParsedConcat(a: seq<string>, b: seq<string>)
    ensures Parsed(a + b) == Parsed(a) + Parsed(b)
  {
  }

  /** The arguments read from left to right; the first invalid one ends the
      parse. */
  function ParseAll(args: seq<string>): Result<seq<Token>, ParseError>
  {
    Collect(Parsed(args))
  }

  /** The parse fails exactly when some argument is invalid, and then with
      the error of the first invalid one. */
  lemma ParseAllFails(args: seq<string>)
    ensures ParseAll(args).Ok? <==> forall i :: 0 <= i < |args| ==> ParseToken(args[i]).Ok?
    ensures ParseAll(args).Err? ==>
      exists i :: (0 <= i < |args| && ParseToken(args[i]).Err? &&
        (forall j :: 0 <= j < i ==> ParseToken(args[j]).Ok?) &&
        ParseAll(args).error == ParseToken(args[i]).error)
  {
    CollectAll(Parsed(args));
    assert forall i :: 0 <= i < |args| ==> Parsed(args)[i] == ParseToken(args[i]);
  }

  /** A successful parse yields one token per argument, in order. */
  lemma ParseAllTokens(args: seq<string>)
    requires ParseAll(args).Ok?
    ensures |ParseAll(args).value| == |args|
    ensures forall i :: 0 <= i < |args| ==> ParseToken(args[i]) == Ok(ParseAll(args).value[i])
  {
    CollectAll(Parsed(args));
  }

  /** The two sets the tokens build: ids to add and ids to remove. */
  datatype Selection = Selection(added: set<u32>, removed: set<u32>)

  /** A token's ids inserted into the set its `!` picks. */
  function Push(sel: Selection, t: Token): Selection
  {
    if t.excluding then sel.(removed := sel.removed + t.ids)
    else sel.(added := sel.added + t.ids)
  }

  /** The sets after the tokens, pushed from left to right. */
  function Selected(toks: seq<Token>): Selection
  {
    if toks == [] then Selection({}, {})
    else Push(Selected(toks[..|toks| - 1]), toks[|toks| - 1])
  }

  /** What the arguments select, or the error of the first invalid one. */
  function Classify(args: seq<string>): Result<Selection, ParseError>
  {
    match ParseAll(args)
    case Err(e) => Err(e)
    case Ok(toks) => Ok(Selected(toks))
  }

  /** `x` is added exactly when some token without `!` stands for it, and
      removed exactly when some `!` token does, wherever they stand. */
  lemma {:induction false} SelectedMembers(toks: seq<Token>, x: u32)
    ensures x in Selected(toks).added <==>
      exists i :: 0 <= i < |toks| && !toks[i].excluding && x in toks[i].ids
    ensures x in Selected(toks).removed <==>
      exists i :: 0 <= i < |toks| && toks[i].excluding && x in toks[i].ids
  {
    if toks != [] {
      var init := toks[..|toks| - 1];
      SelectedMembers(init, x);
      assert forall i :: 0 <= i < |init| ==> init[i] == toks[i];
    }
  }

  /** For valid arguments: `x` is added exactly when some argument without
      `!` stands for it, and removed exactly when some `!` argument does. */
  lemma ClassifyCovers(args: seq<string>, x: u32)
    requires Classify(args).Ok?
    ensures x in Classify(args).value.added <==>
      exists i :: (0 <= i < |args| && !Excluding(args[i]) &&
        ParseToken(args[i]).Ok? && x in ParseToken(args[i]).value.ids)
    ensures x in Classify(args).value.removed <==>
      exists i :: (0 <= i < |args| && Excluding(args[i]) &&
        ParseToken(args[i]).Ok? && x in ParseToken(args[i]).value.ids)
  {
    ParseAllTokens(args);
    SelectedMembers(ParseAll(args).value, x);
  }

  /** The sets of two token lists one after the other are the unions. */
  lemma {:induction false} SelectedConcat(a: seq<Token>, b: seq<Token>)
    ensures Selected(a + b) == Selection(Selected(a).added + Selected(b).added, Selected(a).removed + Selected(b).removed)
    decreases |b|
  {
    if b == [] {
      assert a + b == a;
      assert Selected(b).added == {} && Selected(b).removed == {};
      assert Selected(a).added + {} == Selected(a).added;
      assert Selected(a).removed + {} == Selected(a).removed;
    } else {
      var init := b[..|b| - 1];
      assert (a + b)[..|a + b| - 1] == a + init;
      assert (a + b)[|a + b| - 1] == b[|b| - 1];
      SelectedConcat(a, init);
    }
  }

  /** Parsing two argument lists one after the other: the first error, or
      the tokens of both. */
  lemma ParseAllConcat(a: seq<string>, b: seq<string>)
    ensures ParseAll(a).Err? ==> ParseAll(a + b) == ParseAll(a)
    ensures ParseAll(a).Ok? && ParseAll(b).Err? ==> ParseAll(a + b) == ParseAll(b)
    ensures ParseAll(a).Ok? && ParseAll(b).Ok? ==> ParseAll(a + b) == Ok(ParseAll(a).value + ParseAll(b).value)
  {
    ParsedConcat(a, b);
    CollectConcat(Parsed(a), Parsed(b));
  }

  /** Token order does not matter: swapping two blocks of arguments keeps
      validity and the selection (only which invalid argument is named may
      change). */
  lemma OrderIndependent(a: seq<string>, b: seq<string>)
    ensures Classify(a + b).Ok? <==> Classify(b + a).Ok?
    ensures Classify(a + b).Ok? ==> Classify(a + b) == Classify(b + a)
  {
    ParseAllConcat(a, b);
    ParseAllConcat(b, a);
    if ParseAll(a).Ok? && ParseAll(b).Ok? {
      var ta, tb := ParseAll(a).value, ParseAll(b).value;
      SelectedConcat(ta, tb);
      SelectedConcat(tb, ta);
      var x, y := Selected(ta), Selected(tb);
      assert x.added + y.added == y.added + x.added;
      assert x.removed + y.removed == y.removed + x.removed;
    }
  }

  lemma ParseAllSingle(t: string)
    ensures ParseToken(t).Err? ==> ParseAll([t]) == Err(ParseToken(t).error)
    ensures ParseToken(t).Ok? ==> ParseAll([t]) == Ok([ParseToken(t).value])
  {
    var rs := Parsed([t]);
    assert rs == [ParseToken(t)];
    assert rs[..0] == [];
    assert Collect(rs[..0]) == Ok([]);
    if ParseToken(t).Ok? {
      assert [] + [ParseToken(t).value] == [ParseToken(t).value];
    }
  }

  /** How one more argument changes the outcome. */
  lemma ClassifyAppend(a: seq<string>, t: string)
    ensures Classify(a).Err? ==> Classify(a + [t]) == Classify(a)
    ensures Classify(a).Ok? && ParseToken(t).Err? ==> Classify(a + [t]) == Err(ParseToken(t).error)
    ensures Classify(a).Ok? && ParseToken(t).Ok? ==>
      Classify(a + [t]) == Ok(Push(Classify(a).value, ParseToken(t).value))
  {
    ParseAllConcat(a, [t]);
    ParseAllSingle(t);
    if ParseAll(a).Ok? && ParseToken(t).Ok? {
      var toks := ParseAll(a).value + [ParseToken(t).value];
      assert toks[..|toks| - 1] == ParseAll(a).value;
    }
  }

  /** One more valid argument pushes its token onto the selection so far. */
  lemma ClassifyStep(a: seq<string>, t: string, sel: Selection, tok: Token)
    requires Classify(a) == Ok(sel) && ParseToken(t) == Ok(tok)
    ensures Classify(a + [t]) == Ok(Push(sel, tok))
  {
    ClassifyAppend(a, t);
  }

  /** Two valid arguments push their tokens in order. */
  lemma ClassifyTwo(t0: string, t1: string, tok0: Token, tok1: Token)
    requires ParseToken(t0) == Ok(tok0) && ParseToken(t1) == Ok(tok1)
    ensures Classify([t0, t1]) == Ok(Push(Push(Selection({}, {}), tok0), tok1))
  {
    ClassifyFirst(t0, tok0);
    ClassifyStep([t0], t1, Push(Selection({}, {}), tok0), tok1);
    assert [t0] + [t1] == [t0, t1];
  }

  /** Three valid arguments push their tokens in order. */
  lemma ClassifyThree(t0: string, t1: string, t2: string, tok0: Token, tok1: Token, tok2: Token)
    requires ParseToken(t0) == Ok(tok0) && ParseToken(t1) == Ok(tok1) && ParseToken(t2) == Ok(tok2)
    ensures Classify([t0, t1, t2]) == Ok(Push(Push(Push(Selection({}, {}), tok0), tok1), tok2))
  {
    ClassifyTwo(t0, t1, tok0, tok1);
    ClassifyStep([t0, t1], t2, Push(Push(Selection({}, {}), tok0), tok1), tok2);
    assert [t0, t1] + [t2] == [t0, t1, t2];
  }

  /** An invalid argument after valid ones is the error. */
  lemma ClassifyFails(a: seq<string>, t: string)
    requires Classify(a).Ok? && ParseToken(t).Err?
    ensures Classify(a + [t]) == Err(ParseToken(t).error)
  {
    ClassifyAppend(a, t);
  }

  /** A single valid argument selects what its token stands for. */
  lemma ClassifyFirst(t: string, tok: Token)
    requires ParseToken(t) == Ok(tok)
    ensures Classify([t]) == Ok(Push(Selection({}, {}), tok))
  {
    NoTokens();
    ClassifyStep([], t, Selection({}, {}), tok);
    assert [] + [t] == [t];
  }

  /** A token already among `toks` adds nothing when it comes again. */
  lemma AbsorbToken(toks: seq<Token>, k: nat, rest: seq<Token>)
    requires k < |toks|
    ensures Selected(toks + ([toks[k]] + rest)) == Selected(toks + rest)
  {
    var tok := toks[k];
    SelectedConcat(toks, [tok] + rest);
    SelectedConcat(toks, rest);
    SelectedConcat([tok], rest);
    assert [tok][..0] == [];
    var sel := Selected(toks);
    forall x | x in tok.ids
      ensures if tok.excluding then x in sel.removed else x in sel.added
    {
      SelectedMembers(toks, x);
    }
    var once := Selected([tok]);
    assert sel.added + once.added == sel.added;
    assert sel.removed + once.removed == sel.removed;
  }

  /** An argument that already appeared changes nothing when it appears
      again: neither the selection nor which argument is named as invalid. */
  lemma RepeatAbsorbed(p: seq<string>, t: string, c: seq<string>)
    requires t in p
    ensures Classify(p + [t] + c) == Classify(p + c)
  {
    assert p + [t] + c == p + ([t] + c);
    ParseAllConcat(p, [t] + c);
    ParseAllConcat(p, c);
    if ParseAll(p).Ok? {
      var k :| 0 <= k < |p| && p[k] == t;
      ParseAllTokens(p);
      ParseAllConcat([t], c);
      ParseAllSingle(t);
      if ParseAll(c).Ok? {
        AbsorbToken(ParseAll(p).value, k, ParseAll(c).value);
      }
    }
  }

  /** Repeating an argument changes nothing, wherever the repeat stands. */
  lemma Idempotent(a: seq<string>, t: string, b: seq<string>, c: seq<string>)
    ensures Classify(a + [t] + b + [t] + c) == Classify(a + [t] + b + c)
  {
    var p := a + [t] + b;
    assert p[|a|] == t;
    RepeatAbsorbed(p, t, c);
  }

  /** Once a prefix of the arguments fails, the whole parse fails the same
      way. */
  lemma ClassifyPrefixFails(args: seq<string>, k: nat)
    requires k <= |args| && Classify(args[..k]).Err?
    ensures Classify(args) == Classify(args[..k])
  {
    ParseAllConcat(args[..k], args[k..]);
    assert args[..k] + args[k..] == args;
  }

  /** No tokens select nothing, and the only ascending list of nothing is
      empty. */
  lemma NoTokens()
    ensures Classify([]) == Ok(Selection({}, {}))
    ensures forall s :: Lists(s, {}) ==> s == []
  {
    forall s
      ensures Lists(s, {}) ==> s == []
    {
      ListsEmpty(s, {});
    }
  }

  /** A rendered number is a token standing for itself. */
  lemma NumberToken(n: u32)
    ensures TokenIds(Render(n)) == Some({n})
  {
    RenderRoundTrip(n);
  }

  lemma {:induction false} DashAfter(w: string, rest: string)
    requires '-' !in w
    ensures Dash(w + "-" + rest) == Some(|w|)
  {
    if w != [] {
      assert (w + "-" + rest)[1..] == w[1..] + "-" + rest;
      assert w[0] in w;
      DashAfter(w[1..], rest);
    }
  }

  /** `N-M` stands for `N..=M`; with `N > M` it is accepted and stands for
      no id at all. */
  lemma RangeToken(n: u32, m: u32)
    ensures TokenIds(Render(n) + "-" + Render(m)) == Some(Span(n, m))
    ensures n > m ==> TokenIds(Render(n) + "-" + Render(m)) == Some({})
  {
    RenderRoundTrip(n);
    RenderRoundTrip(m);
    var rn, rm := Render(n), Render(m);
    var a := rn + "-" + rm;
    NumberHasNoDash(a);
    assert a[|rn|] == '-';
    AllDigitsIndex(rn);
    DashAfter(rn, rm);
    assert a[..|rn|] == rn && a[|rn| + 1..] == rm;
    assert ParseRange(a) == Some((n, m));
    if n > m {
      assert forall x :: x !in Span(n, m);
    }
  }

  // ---------------------------------------------------------------------
  // The result list

  predicate Ascending(s: seq<u32>)
  {
    forall i, j :: 0 <= i < j < |s| ==> s[i] <= s[j]
  }

  predicate StrictlyAscending(s: seq<u32>)
  {
    forall i, j :: 0 <= i < j < |s| ==> s[i] < s[j]
  }

  /** `s` lists exactly the ids of `ids`, in strictly ascending order. */
  ghost predicate Lists(s: seq<u32>, ids: set<u32>)
  {
    StrictlyAscending(s) && forall x :: x in s <==> x in ids
  }

  /** The head of such a list is the least id, and the tail lists the
      others. */
  lemma ListsTail(s: seq<u32>, ids: set<u32>)
    requires Lists(s, ids) && s != []
    ensures forall x :: x in ids ==> s[0] <= x
    ensures Lists(s[1..], ids - {s[0]})
  {
    forall x | x in ids
      ensures s[0] <= x
    {
      var k :| 0 <= k < |s| && s[k] == x;
    }
    forall x
      ensures x in s[1..] <==> x in ids - {s[0]}
    {
      if x in s[1..] {
        var k :| 0 <= k < |s[1..]| && s[1..][k] == x;
        assert s[k + 1] == x;
      }
      if x in s && x != s[0] {
        var k :| 0 <= k < |s| && s[k] == x;
        assert s[1..][k - 1] == x;
      }
    }
  }

  /** There is only one such list, so `Lists` pins the result down. */
  lemma {:induction false} ListsUnique(a: seq<u32>, b: seq<u32>, ids: set<u32>)
    requires Lists(a, ids) && Lists(b, ids)
    ensures a == b
    decreases |a|
  {
    ListsEmpty(a, ids);
    ListsEmpty(b, ids);
    if a != [] {
      ListsTail(a, ids);
      ListsTail(b, ids);
      assert a[0] in ids && b[0] in ids;
      assert a[0] == b[0];
      ListsUnique(a[1..], b[1..], ids - {a[0]});
      assert a == [a[0]] + a[1..];
      assert b == [b[0]] + b[1..];
    }
  }

  /** A list of ids is empty exactly when the set is. */
  lemma ListsEmpty(s: seq<u32>, ids: set<u32>)
    ensures Lists(s, ids) ==> (s == [] <==> ids == {})
  {
    if s != [] {
      assert s[0] in s;
    }
    if ids != {} {
      var x :| x in ids;
      assert Lists(s, ids) ==> x in s;
    }
  }

  ghost predicate Distinct(s: seq<u32>)
  {
    forall x :: multiset(s)[x] <= 1
  }

  /** An ascending list without repetition is strictly ascending. */
  lemma DistinctAscending(s: seq<u32>)
    requires Ascending(s) && Distinct(s)
    ensures StrictlyAscending(s)
  {
    forall i, j | 0 <= i < j < |s|
      ensures s[i] < s[j]
    {
      RepeatCounted(s, i, j);
    }
  }

  /** A value found at two indices occurs at least twice. */
  lemma RepeatCounted(s: seq<u32>, i: nat, j: nat)
    requires i < j < |s|
    ensures s[i] == s[j] ==> multiset(s)[s[i]] >= 2
  {
    assert s == s[..j] + [s[j]] + s[j + 1..];
    assert s[..j][i] == s[i];
    assert multiset(s[..j])[s[i]] >= 1;
  }

  /** `sort_unstable`: an ascending permutation, by insertion. */
  method SortUnstable(s: seq<u32>) returns (r: seq<u32>)
    ensures Ascending(r) && multiset(r) == multiset(s)
  {
    r := [];
    var i := 0;
    while i < |s|
      invariant 0 <= i <= |s|
      invariant Ascending(r) && multiset(r) == multiset(s[..i])
    {
      var x := s[i];
      var j := 0;
      while j < |r| && r[j] < x
        invariant 0 <= j <= |r|
        invariant forall k :: 0 <= k < j ==> r[k] < x
      {
        j := j + 1;
      }
      InsertAscending(r, j, x);
      r := r[..j] + [x] + r[j..];
      assert s[..i + 1] == s[..i] + [x];
      i := i + 1;
    }
    assert s[..|s|] == s;
  }

  /** Inserting `x` in front of the first element not below it keeps an
      ascending sequence ascending and adds `x` to its elements. */
  lemma InsertAscending(r: seq<u32>, j: nat, x: u32)
    requires Ascending(r) && j <= |r|
    requires forall k :: 0 <= k < j ==> r[k] < x
    requires j < |r| ==> x <= r[j]
    ensures Ascending(r[..j] + [x] + r[j..])
    ensures multiset(r[..j] + [x] + r[j..]) == multiset(r) + multiset{x}
  {
    assert r == r[..j] + r[j..];
  }

  // ---------------------------------------------------------------------
  // `from_strs` and `from_str`

  /** `parse_and_push`: a number is inserted, a range is inserted id by id
      from `start` up to and including `end`, anything else is an error. */
  method ParseAndPush(ids: set<u32>, arg: string) returns (r: Result<set<u32>, ParseError>)
    ensures TokenIds(arg).None? ==> r == Err(InvalidArgument(arg))
    ensures TokenIds(arg).Some? ==> r == Ok(ids + TokenIds(arg).value)
  {
    var n := ParseU32(arg);
    if n.Some? {
      return Ok(ids + {n.value});
    }
    var range := ParseRange(arg);
    if range.None? {
      return Err(InvalidArgument(arg));
    }
    var (start, end) := range.value;
    var pushed := ids;
    var i: int := start;
    while i <= end
      invariant start <= i && (i <= end as int + 1 || i == start)
      invariant pushed == ids + Between(start, i)
    {
      pushed := pushed + {i};
      i := i + 1;
    }
    assert pushed == ids + Span(start, end);
    r := Ok(pushed);
  }

  /** `Feeds::from_strs`: the tokens fill an id set and an ignore set in
      order, the ids outside the ignore set are collected and sorted. */
  method FromStrs(args: seq<string>) returns (r: Result<Feeds, ParseError>)
    ensures r.Err? <==> Classify(args).Err?
    ensures r.Err? ==> r.error == Classify(args).error
    ensures r.Ok? ==> Lists(r.value.ids, Classify(args).value.added - Classify(args).value.removed)
  {
    var idsSet: set<u32> := {};
    var ignoreSet: set<u32> := {};
    var k := 0;
    while k < |args|
      invariant 0 <= k <= |args|
      invariant Classify(args[..k]) == Ok(Selection(idsSet, ignoreSet))
    {
      var arg := args[k];
      assert args[..k + 1] == args[..k] + [arg];
      ClassifyAppend(args[..k], arg);
      if Excluding(arg) {
        var pushed := ParseAndPush(ignoreSet, arg[1..]);
        if pushed.Err? {
          ClassifyPrefixFails(args, k + 1);
          return Err(pushed.error);
        }
        ignoreSet := pushed.value;
      } else {
        var pushed := ParseAndPush(idsSet, arg);
        if pushed.Err? {
          ClassifyPrefixFails(args, k + 1);
          return Err(pushed.error);
        }
        idsSet := pushed.value;
      }
      k := k + 1;
    }
    assert args[..|args|] == args;

    var feeds: seq<u32> := [];
    var rest := idsSet;
    while rest != {}
      invariant rest <= idsSet
      invariant forall x :: x in feeds <==> x in idsSet - rest - ignoreSet
      invariant Distinct(feeds)
      decreases |rest|
    {
      var feedId :| feedId in rest;
      rest := rest - {feedId};
      if feedId in ignoreSet {
        continue;
      }
      assert feedId !in feeds;
      feeds := feeds + [feedId];
    }
    var sorted := SortUnstable(feeds);
    DistinctAscending(sorted);
    forall x
      ensures x in sorted <==> x in feeds
    {
      assert x in sorted <==> x in multiset(sorted);
      assert x in feeds <==> x in multiset(feeds);
    }
    r := Ok(Feeds(sorted));
  }

  /** `char::is_whitespace`: the Unicode White_Space characters. */
  predicate IsWhitespace(c: char)
  {
    var n := c as int;
    (0x09 <= n <= 0x0D) || n == 0x20 || n == 0x85 || n == 0xA0 || n == 0x1680 ||
    (0x2000 <= n <= 0x200A) || n == 0x2028 || n == 0x2029 || n == 0x202F ||
    n == 0x205F || n == 0x3000
  }

  function TrimStart(s: string): (r: string)
    ensures |r| <= |s| && r == s[|s| - |r|..]
  {
    if s != [] && IsWhitespace(s[0]) then TrimStart(s[1..]) else s
  }

  function TrimEnd(s: string): (r: string)
    ensures |r| <= |s| && r == s[..|r|]
  {
    if s != [] && IsWhitespace(s[|s| - 1]) then TrimEnd(s[..|s| - 1]) else s
  }

  /** `str::trim`. */
  function Trim(s: string): string
  {
    TrimEnd(TrimStart(s))
  }

  /** `str::split(' ')`: the pieces between single spaces, empty ones
      included; always at least one piece. */
  function SplitSpaces(s: string): (r: seq<string>)
    ensures |r| >= 1
  {
    if s == [] then [[]]
    else
      var t := SplitSpaces(s[1..]);
      if s[0] == ' ' then [[]] + t else [[s[0]] + t[0]] + t[1..]
  }

  /** The trimmed pieces that are not empty. */
  function Keep(pieces: seq<string>): (r: seq<string>)
    ensures forall i :: 0 <= i < |r| ==> r[i] != []
  {
    if pieces == [] then []
    else
      var t := Trim(pieces[0]);
      (if t == [] then [] else [t]) + Keep(pieces[1..])
  }

  /** The tokens `from_str` passes on to `from_strs`. */
  function Tokenize(arg: string): seq<string>
  {
    Keep(SplitSpaces(arg))
  }

  predicate Word(t: string)
  {
    t != [] && forall i :: 0 <= i < |t| ==> !IsWhitespace(t[i])
  }

  /** Words written one after the other with a single space between them. */
  function Joined(ts: seq<string>): string
  {
    if ts == [] then []
    else if |ts| == 1 then ts[0]
    else ts[0] + " " + Joined(ts[1..])
  }

  lemma {:induction false} SplitWord(w: string, rest: string)
    requires ' ' !in w
    ensures SplitSpaces(w + " " + rest) == [w] + SplitSpaces(rest)
  {
    if w != [] {
      assert (w + " " + rest)[1..] == w[1..] + " " + rest;
      SplitWord(w[1..], rest);
      assert [w[0]] + w[1..] == w;
    }
  }

  lemma {:induction false} SplitLastWord(w: string)
    requires ' ' !in w
    ensures SplitSpaces(w) == [w]
  {
    if w != [] {
      SplitLastWord(w[1..]);
      assert [w[0]] + w[1..] == w;
    }
  }

  lemma WordHasNoSpace(w: string)
    requires Word(w)
    ensures ' ' !in w
  {
    assert forall i :: 0 <= i < |w| ==> !IsWhitespace(w[i]);
  }

  lemma {:induction false} SplitJoined(ts: seq<string>)
    requires ts != []
    requires forall i :: 0 <= i < |ts| ==> Word(ts[i])
    ensures SplitSpaces(Joined(ts)) == ts
  {
    WordHasNoSpace(ts[0]);
    if |ts| == 1 {
      SplitLastWord(ts[0]);
    } else {
      SplitWord(ts[0], Joined(ts[1..]));
      SplitJoined(ts[1..]);
      assert [ts[0]] + ts[1..] == ts;
    }
  }

  lemma {:induction false} KeepWords(ts: seq<string>)
    requires forall i :: 0 <= i < |ts| ==> Word(ts[i])
    ensures Keep(ts) == ts
  {
    if ts != [] {
      assert Trim(ts[0]) == ts[0] by {
        assert !IsWhitespace(ts[0][0]) && !IsWhitespace(ts[0][|ts[0]| - 1]);
      }
      KeepWords(ts[1..]);
      assert [ts[0]] + ts[1..] == ts;
    }
  }

  /** Tokenizing whitespace-free words separated by single spaces gives back
      the words. */
  lemma TokenizeJoined(ts: seq<string>)
    requires forall i :: 0 <= i < |ts| ==> Word(ts[i])
    ensures Tokenize(Joined(ts)) == ts
  {
    if ts != [] {
      SplitJoined(ts);
      KeepWords(ts);
    }
  }

  /** `Feeds::from_str`: split on single spaces, trim, drop the empty pieces,
      then `from_strs`. */
  method FromStr(arg: string) returns (r: Result<Feeds, ParseError>)
    ensures r.Err? <==> Classify(Tokenize(arg)).Err?
    ensures r.Err? ==> r.error == Classify(Tokenize(arg)).error
    ensures r.Ok? ==> Lists(r.value.ids, Classify(Tokenize(arg)).value.added - Classify(Tokenize(arg)).value.removed)
  {
    r := FromStrs(Tokenize(arg));
  }

  // ---------------------------------------------------------------------
  // The cases the module's tests exercise

  /** `"1-5 !2 !4"` is read as the three words between its spaces. */
  lemma ExampleWords()
    ensures Tokenize("1-5 !2 !4") == ["1-5", "!2", "!4"]
  {
    var ts := ["1-5", "!2", "!4"];
    assert Word(ts[0]) && Word(ts[1]) && Word(ts[2]);
    assert Joined(ts) == "1-5 !2 !4";
    TokenizeJoined(ts);
  }

  lemma ExampleTokens()
    ensures ParseToken("1-5") == Ok(Token(false, Span(1, 5)))
    ensures ParseToken("!2") == Ok(Token(true, {2}))
    ensures ParseToken("!4") == Ok(Token(true, {4}))
  {
    SmallRenders();
    assert "1" + "-" + "5" == "1-5";
    assert Stripped("!2") == "2" && Stripped("!4") == "4";
    RangeToken(1, 5);
    NumberToken(2);
    NumberToken(4);
  }

  /** `1-5 !2 !4` selects 1 to 5 and ignores 2 and 4 (the only list of
      what is left is `[1, 3, 5]`, see `ExampleLists`). */
  lemma RangeWithExclusions()
    ensures Classify(["1-5", "!2", "!4"]) == Ok(Selection(Span(1, 5), {2} + {4}))
  {
    var all := Span(1, 5);
    ExampleTokens();
    ClassifyThree("1-5", "!2", "!4", Token(false, all), Token(true, {2}), Token(true, {4}));
    IncludeThenExclude(all, {2}, {4});
  }

  lemma ExcludedRangeTokens()
    ensures ParseToken("1-5") == Ok(Token(false, Span(1, 5)))
    ensures ParseToken("!2-3") == Ok(Token(true, Span(2, 3)))
  {
    SmallRenders();
    assert "1" + "-" + "5" == "1-5";
    assert "2" + "-" + "3" == Stripped("!2-3");
    RangeToken(1, 5);
    RangeToken(2, 3);
  }

  /** `["1-5", "!2-3"]` removes a whole range. */
  lemma ExcludedRange()
    ensures Classify(["1-5", "!2-3"]) == Ok(Selection(Span(1, 5), Span(2, 3)))
  {
    var all, gap := Span(1, 5), Span(2, 3);
    ExcludedRangeTokens();
    ClassifyTwo("1-5", "!2-3", Token(false, all), Token(true, gap));
    IncludeThenExclude(all, gap, {});
  }

  /** One set added, then one or two excluded. */
  lemma IncludeThenExclude(all: set<u32>, x: set<u32>, y: set<u32>)
    ensures Push(Push(Selection({}, {}), Token(false, all)), Token(true, x)) == Selection(all, x)
    ensures Push(Push(Push(Selection({}, {}), Token(false, all)), Token(true, x)), Token(true, y))
            == Selection(all, x + y)
  {
    assert {} + all == all && {} + x == x;
  }

  /** The ranges of the examples, element by element. */
  lemma ExampleSpans()
    ensures Span(1, 5) == {1, 2, 3, 4, 5} && Span(2, 3) == {2, 3}
  {
  }

  /** The results the module's tests expect: `[1, 3, 5]` for the first
      selection above and `[1, 4, 5]` for the second. */
  lemma ExampleLists()
    ensures Lists([1, 3, 5], Span(1, 5) - ({2} + {4}))
    ensures Lists([1, 4, 5], Span(1, 5) - Span(2, 3))
  {
    ExampleSpans();
  }

  /** `["7", "13"]`: the two numbers, listed `[7, 13]`. */
  lemma SomeFeeds()
    ensures Classify(["7", "13"]) == Ok(Selection({7, 13}, {}))
    ensures Lists([7, 13], {7, 13} - {})
  {
    MoreRenders();
    NumberToken(7);
    NumberToken(13);
    ClassifyTwo("7", "13", Token(false, {7}), Token(false, {13}));
    assert {} + {7} + {13} == {7, 13};
  }

  /** `["7-9"]`: the range, listed `[7, 8, 9]`. */
  lemma FeedsRange()
    ensures Classify(["7-9"]) == Ok(Selection(Span(7, 9), {}))
    ensures Lists([7, 8, 9], Span(7, 9) - {})
  {
    MoreRenders();
    assert "7" + "-" + "9" == "7-9";
    RangeToken(7, 9);
    ClassifyFirst("7-9", Token(false, Span(7, 9)));
    assert {} + Span(7, 9) == Span(7, 9);
    RangeListed();
  }

  lemma RangeListed()
    ensures Lists([7, 8, 9], Span(7, 9) - {})
  {
    assert Span(7, 9) - {} == {7, 8, 9};
  }

  /** `["1-3", "7-8"]`: both ranges, listed `[1, 2, 3, 7, 8]`. */
  lemma FeedRanges()
    ensures Classify(["1-3", "7-8"]) == Ok(Selection(Span(1, 3) + Span(7, 8), {}))
    ensures Lists([1, 2, 3, 7, 8], Span(1, 3) + Span(7, 8) - {})
  {
    SmallRenders();
    MoreRenders();
    assert "1" + "-" + "3" == "1-3" && "7" + "-" + "8" == "7-8";
    RangeToken(1, 3);
    RangeToken(7, 8);
    ClassifyTwo("1-3", "7-8", Token(false, Span(1, 3)), Token(false, Span(7, 8)));
    assert {} + Span(1, 3) == Span(1, 3);
    RangesListed();
  }

  lemma RangesListed()
    ensures Lists([1, 2, 3, 7, 8], Span(1, 3) + Span(7, 8) - {})
  {
    assert Span(1, 3) == {1, 2, 3} && Span(7, 8) == {7, 8};
    assert Span(1, 3) + Span(7, 8) - {} == {1, 2, 3, 7, 8};
  }

  /** `["1-3", "!2"]`: the range without 2, listed `[1, 3]`. */
  lemma IgnoreFeed()
    ensures Classify(["1-3", "!2"]) == Ok(Selection(Span(1, 3), {2}))
    ensures Lists([1, 3], Span(1, 3) - {2})
  {
    SmallRenders();
    assert "1" + "-" + "3" == "1-3";
    assert Stripped("!2") == "2";
    RangeToken(1, 3);
    NumberToken(2);
    ClassifyTwo("1-3", "!2", Token(false, Span(1, 3)), Token(true, {2}));
    IncludeThenExclude(Span(1, 3), {2}, {});
    assert Span(1, 3) - {2} == {1, 3};
  }

  /** `["0", "abc", "3-1"]` fails on `abc`; the reversed range `3-1` after
      it would be valid on its own. */
  lemma BadToken()
    ensures Classify(["0", "abc", "3-1"]) == Err(InvalidArgument("abc"))
    ensures TokenIds("3-1") == Some({})
  {
    SmallRenders();
    assert "3" + "-" + "1" == "3-1";
    RangeToken(3, 1);
    assert Stripped("0") == "0";
    NumberToken(0);
    WordToken();
    ClassifyFirst("0", Token(false, {0}));
    ClassifyFails(["0"], "abc");
    assert ["0"] + ["abc"] == ["0", "abc"];
    ClassifyAppend(["0", "abc"], "3-1");
    assert ["0", "abc"] + ["3-1"] == ["0", "abc", "3-1"];
  }

  /** A word is neither a number nor a range. */
  lemma WordToken()
    ensures ParseToken("abc") == Err(InvalidArgument("abc"))
  {
    var t := "abc";
    assert !AllDigits(t);
    DashFinds(t);
    assert '-' !in t by {
      assert t == ['a', 'b', 'c'];
    }
  }
}
