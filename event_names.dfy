/**
 * Event names of the emitter in event-emiter.ts and `multiName`, which turns
 * one name argument into the list of names an operation acts on: a symbol
 * stays atomic, a string is trimmed and split on runs of white space.
 */
module EventNames {

  /** An event key: a string name, or an opaque symbol token (never split). */
  datatype EventName = Str(s: string) | Sym(token: nat)

  /**
   * The characters that `String.prototype.trim` removes and that the regular
   * expression class `\s` matches (the ECMAScript WhiteSpace and
   * LineTerminator characters).
   */
  predicate IsSpace(c: char)
  {
    || c == '\t' || c == '\n' || c == '\U{B}' || c == '\U{C}' || c == '\r' || c == ' '
    || c == '\U{A0}' || c == '\U{1680}' || ('\U{2000}' <= c <= '\U{200A}')
    || c == '\U{2028}' || c == '\U{2029}' || c == '\U{202F}' || c == '\U{205F}'
    || c == '\U{3000}' || c == '\U{FEFF}'
  }

  predicate NoSpace(s: string)
  {
    forall i :: 0 <= i < |s| ==> !IsSpace(s[i])
  }

  /** Every character of `s` is white space (the empty string qualifies). */
  predicate NoneButSpace(s: string)
  {
    forall i :: 0 <= i < |s| ==> IsSpace(s[i])
  }

  /** Neither end of `s` is white space (an empty string qualifies). */
  predicate Trimmed(s: string)
  {
    s == [] || (!IsSpace(s[0]) && !IsSpace(s[|s| - 1]))
  }

  /** `s` without its leading white space: exactly a run of white space is dropped. */
  function TrimStart(s: string): (r: string)
    ensures |r| <= |s|
    ensures r != [] ==> r[|r| - 1] == s[|s| - 1]
    ensures r == [] || !IsSpace(r[0])
    ensures forall i :: 0 <= i < |s| - |r| ==> IsSpace(s[i])
  {
    if |s| > 0 && IsSpace(s[0]) then TrimStart(s[1..]) else s
  }

  /** `s` without its trailing white space: exactly a run of white space is dropped. */
  function TrimEnd(s: string): (r: string)
    ensures |r| <= |s|
    ensures r == s[..|r|]
    ensures r == [] || !IsSpace(r[|r| - 1])
    ensures forall i :: |r| <= i < |s| ==> IsSpace(s[i])
  {
    if |s| > 0 && IsSpace(s[|s| - 1]) then TrimEnd(s[..|s| - 1]) else s
  }

  /** JavaScript's `s.trim()`. */
  function Trim(s: string): (r: string)
    ensures Trimmed(r)
    ensures Trimmed(s) ==> r == s
  {
    TrimEnd(TrimStart(s))
  }

  /** Index of the first white-space character of `s`, or `|s|` when there is none. */
  function FirstSpace(s: string): (i: nat)
    ensures i <= |s|
    ensures forall j :: 0 <= j < i ==> !IsSpace(s[j])
    ensures i < |s| ==> IsSpace(s[i])
  {
    if s == [] || IsSpace(s[0]) then 0 else 1 + FirstSpace(s[1..])
  }

  /**
   * JavaScript's `s.split(/\s+/)`: the pieces between maximal runs of white
   * space. White space at either end yields an empty first or last piece,
   * and the empty string yields one empty piece.
   */
  function Split(s: string): (r: seq<string>)
    ensures |r| >= 1
    ensures forall k :: 0 <= k < |r| ==> NoSpace(r[k])
    ensures s != [] && Trimmed(s) ==> forall k :: 0 <= k < |r| ==> r[k] != []
    decreases |s|
  {
    var i := FirstSpace(s);
    if i == |s| then [s] else [s[..i]] + Split(TrimStart(s[i..]))
  }

  /** The pieces `multiName` yields for a string name. */
  function Tokens(s: string): (r: seq<string>)
    ensures |r| >= 1
    ensures forall k :: 0 <= k < |r| ==> NoSpace(r[k])
    ensures Trim(s) == [] ==> r == [[]]
    ensures Trim(s) != [] ==> forall k :: 0 <= k < |r| ==> r[k] != []
  {
    Split(Trim(s))
  }

  /** `multiName(name)` of event-emiter.ts. */
  function MultiName(name: EventName): (r: seq<EventName>)
    ensures |r| >= 1
    ensures name.Sym? ==> r == [name]
    ensures name.Str? ==> forall k :: 0 <= k < |r| ==> r[k].Str? && NoSpace(r[k].s)
    ensures name.Str? && Trim(name.s) == [] ==> r == [Str([])]
    ensures name.Str? && Trim(name.s) != [] ==> forall k :: 0 <= k < |r| ==> r[k].s != []
  {
    match name
    case Sym(_) => [name]
    case Str(s) => Names(Tokens(s))
  }

  /** Each piece as a string event name. */
  function Names(ts: seq<string>): (r: seq<EventName>)
    ensures |r| == |ts|
    ensures forall k :: 0 <= k < |ts| ==> r[k] == Str(ts[k])
  {
    seq(|ts|, k requires 0 <= k < |ts| => Str(ts[k]))
  }

  /** A list of tokens `multiName` could have produced from a non-blank string. */
  predicate ProperTokens(ts: seq<string>)
  {
    |ts| >= 1 && forall k :: 0 <= k < |ts| ==> ts[k] != [] && NoSpace(ts[k])
  }

  /** Tokens joined by single spaces: the string `ts.join(' ')`. */
  function Join(ts: seq<string>): string
  {
    if |ts| == 0 then [] else if |ts| == 1 then ts[0] else ts[0] + " " + Join(ts[1..])
  }

  /** All characters of `s` that are not white space, in order. */
  function Squeeze(s: string): string
  {
    if s == [] then [] else (if IsSpace(s[0]) then [] else [s[0]]) + Squeeze(s[1..])
  }

  /** The pieces laid end to end. */
  function Concat(ts: seq<string>): string
  {
    if ts == [] then [] else ts[0] + Concat(ts[1..])
  }

  lemma {:induction false} JoinEnds(ts: seq<string>)
    requires ProperTokens(ts)
    ensures Join(ts) != [] && Trimmed(Join(ts))
    ensures Join(ts)[0] == ts[0][0]
    ensures FirstSpace(Join(ts)) == |ts[0]|
  {
    if |ts| > 1 {
      JoinEnds(ts[1..]);
      var rest := Join(ts[1..]);
      assert Join(ts) == ts[0] + " " + rest;
      assert Join(ts)[|Join(ts)| - 1] == rest[|rest| - 1];
      assert Join(ts) == ts[0] + (" " + rest);
      FirstSpaceOfPrefix(ts[0], " " + rest);
    } else {
      assert Join(ts) == ts[0];
      FirstSpaceOfPrefix(ts[0], []);
    }
  }

  lemma FirstSpaceOfPrefix(a: string, b: string)
    requires NoSpace(a)
    requires b == [] || IsSpace(b[0])
    ensures FirstSpace(a + b) == |a|
  {
    assert forall j :: 0 <= j < |a| ==> (a + b)[j] == a[j];
    if b != [] {
      assert (a + b)[|a|] == b[0];
    }
  }

  /** Splitting joined tokens gives the tokens back. */
  lemma {:induction false} SplitJoin(ts: seq<string>)
    requires ProperTokens(ts)
    ensures Split(Join(ts)) == ts
  {
    if |ts| == 1 {
      JoinEnds(ts);
      assert Join(ts) == ts[0];
    } else {
      var rest := Join(ts[1..]);
      assert ProperTokens(ts[1..]);
      JoinEnds(ts[1..]);
      SplitAtSpace(ts[0], rest);
      SplitJoin(ts[1..]);
      assert ts == [ts[0]] + ts[1..];
    }
  }

  /** A token, one space, and a string starting with a non-space: the token is the first piece. */
  lemma SplitAtSpace(a: string, rest: string)
    requires NoSpace(a) && rest != [] && !IsSpace(rest[0])
    ensures Split(a + " " + rest) == [a] + Split(rest)
  {
    var s := a + " " + rest;
    assert s == a + (" " + rest);
    FirstSpaceOfPrefix(a, " " + rest);
    assert s[..|a|] == a;
    assert s[|a|..] == " " + rest;
    TrimStartOneSpace(rest);
  }

  lemma TrimStartOneSpace(rest: string)
    requires rest != [] && !IsSpace(rest[0])
    ensures TrimStart(" " + rest) == rest
  {
    assert (" " + rest)[1..] == rest;
  }

  /**
   * `multiName` of tokens joined by spaces is exactly those tokens: a string
   * name registers, emits or removes each of its space-separated tokens.
   */
  lemma MultiNameJoin(ts: seq<string>)
    requires ProperTokens(ts)
    ensures MultiName(Str(Join(ts))) == Names(ts)
  {
    JoinEnds(ts);
    SplitJoin(ts);
  }

  /** A non-empty string without white space is a single event name. */
  lemma MultiNameSingle(s: string)
    requires s != [] && NoSpace(s)
    ensures MultiName(Str(s)) == [Str(s)]
  {
    MultiNameJoin([s]);
    assert Join([s]) == s;
  }

  /**
   * `s` with every maximal run of white space turned into one `" "`: a
   * white-space character is dropped when white space follows it, and
   * becomes a single space otherwise.
   */
  function Collapse(s: string): string
  {
    if s == [] then []
    else if !IsSpace(s[0]) then [s[0]] + Collapse(s[1..])
    else if |s| > 1 && IsSpace(s[1]) then Collapse(s[1..])
    else " " + Collapse(s[1..])
  }

  lemma {:induction false} CollapseNoSpacePrefix(a: string, b: string)
    requires NoSpace(a)
    ensures Collapse(a + b) == a + Collapse(b)
  {
    if a != [] {
      assert (a + b)[0] == a[0];
      assert (a + b)[1..] == a[1..] + b;
      CollapseNoSpacePrefix(a[1..], b);
      assert a == [a[0]] + a[1..];
    } else {
      assert a + b == b;
    }
  }

  /** A run of white space followed by more text collapses to one space. */
  lemma {:induction false} CollapseSpaceRun(t: string)
    requires t != [] && IsSpace(t[0]) && TrimStart(t) != []
    ensures Collapse(t) == " " + Collapse(TrimStart(t))
    decreases |t|
  {
    if |t| > 1 && IsSpace(t[1]) {
      CollapseSpaceRun(t[1..]);
    }
  }

  /**
   * The pieces of a non-empty string with no white space at either end,
   * joined by single spaces, are the string with its white-space runs
   * collapsed: the cuts fall exactly at the runs of white space.
   */
  lemma {:induction false} SplitCollapse(s: string)
    requires s != [] && Trimmed(s)
    ensures Join(Split(s)) == Collapse(s)
    decreases |s|
  {
    var i := FirstSpace(s);
    if i == |s| {
      CollapseNoSpacePrefix(s, []);
      assert s + [] == s;
    } else {
      var rest := TrimStart(s[i..]);
      CollapseStep(s, i, rest);
      SplitCollapse(rest);
      JoinSplitStep(s, i, rest);
    }
  }

  /** Past the first white-space run, what is left of a trimmed string is trimmed and non-empty. */
  lemma CollapseStep(s: string, i: nat, rest: string)
    requires s != [] && Trimmed(s) && i == FirstSpace(s) && i < |s| && rest == TrimStart(s[i..])
    ensures rest != [] && Trimmed(rest) && |rest| < |s|
    ensures Collapse(s) == s[..i] + " " + Collapse(rest)
  {
    var head, tail := s[..i], s[i..];
    assert tail[|tail| - 1] == s[|s| - 1];
    assert s == head + tail;
    CollapseNoSpacePrefix(head, tail);
    CollapseSpaceRun(tail);
  }

  lemma JoinSplitStep(s: string, i: nat, rest: string)
    requires i == FirstSpace(s) && i < |s| && rest == TrimStart(s[i..])
    ensures Join(Split(s)) == s[..i] + " " + Join(Split(rest))
  {
    var r := Split(rest);
    assert Split(s) == [s[..i]] + r;
    assert ([s[..i]] + r)[1..] == r;
  }

  /** Tokens joined by single spaces are one collapsed, trimmed string for exactly one list of tokens. */
  lemma JoinInjective(ts: seq<string>, us: seq<string>)
    requires ProperTokens(ts) && ProperTokens(us) && Join(ts) == Join(us)
    ensures ts == us
  {
    SplitJoin(ts);
    SplitJoin(us);
  }

  /**
   * The pieces of a non-blank string are the trimmed string cut at its
   * white-space runs: joined by single spaces they give the trimmed string
   * with every run collapsed to one space.
   */
  lemma TokensCollapse(s: string)
    requires Trim(s) != []
    ensures ProperTokens(Tokens(s))
    ensures Join(Tokens(s)) == Collapse(Trim(s))
  {
    SplitCollapse(Trim(s));
  }

  /**
   * `multiName` of a string: the names are the tokens whose single-space
   * join is the trimmed string with its white-space runs collapsed, and no
   * other list of tokens.
   */
  lemma MultiNameCollapse(s: string, ts: seq<string>)
    requires ProperTokens(ts) && Join(ts) == Collapse(Trim(s))
    ensures MultiName(Str(s)) == Names(ts)
  {
    JoinEnds(ts);
    assert Trim(s) != [];
    TokensCollapse(s);
    JoinInjective(Tokens(s), ts);
  }

  /** Two tokens joined by one space. */
  lemma TwoTokens(a: string, b: string)
    requires a != [] && b != [] && NoSpace(a) && NoSpace(b)
    ensures ProperTokens([a, b]) && Join([a, b]) == a + " " + b
    ensures Names([a, b]) == [Str(a), Str(b)]
  {
    assert [a, b][1..] == [b];
  }

  /** With `s` trimmed and collapsing to two tokens joined by one space, `multiName` gives those two. */
  lemma MultiNameTwo(s: string, a: string, b: string)
    requires a != [] && b != [] && NoSpace(a) && NoSpace(b)
    requires Collapse(Trim(s)) == a + " " + b
    ensures MultiName(Str(s)) == [Str(a), Str(b)]
  {
    TwoTokens(a, b);
    MultiNameCollapse(s, [a, b]);
  }

  /** Dropping a leading run of white space from a run followed by a non-space. */
  lemma {:induction false} TrimStartRun(sep: string, b: string)
    requires NoneButSpace(sep) && b != [] && !IsSpace(b[0])
    ensures TrimStart(sep + b) == b
    decreases |sep|
  {
    if sep == [] {
      assert sep + b == b;
    } else {
      assert (sep + b)[0] == sep[0];
      assert (sep + b)[1..] == sep[1..] + b;
      TrimStartRun(sep[1..], b);
    }
  }

  /**
   * Any non-empty run of white space between two tokens, tabs and line
   * breaks included, separates them into exactly two names.
   */
  lemma MultiNameSeparated(a: string, sep: string, b: string)
    requires a != [] && b != [] && NoSpace(a) && NoSpace(b)
    requires sep != [] && NoneButSpace(sep)
    ensures MultiName(Str(a + sep + b)) == [Str(a), Str(b)]
  {
    var s := a + sep + b;
    var tail := sep + b;
    assert s == a + tail;
    assert s[0] == a[0] && s[|s| - 1] == b[|b| - 1];
    assert Trimmed(s);
    CollapseNoSpacePrefix(a, tail);
    TrimStartRun(sep, b);
    assert tail[0] == sep[0];
    CollapseSpaceRun(tail);
    CollapseNoSpacePrefix(b, []);
    assert b + [] == b;
    MultiNameTwo(s, a, b);
  }

  /** A tab separates names like a space does. */
  lemma MultiNameTab()
    ensures MultiName(Str("ok\tcancel")) == [Str("ok"), Str("cancel")]
  {
    assert "ok\tcancel" == "ok" + "\t" + "cancel";
    MultiNameSeparated("ok", "\t", "cancel");
  }

  /** A run of spaces separates names like one space does, and padding is trimmed. */
  lemma MultiNameRun()
    ensures MultiName(Str(" a  b ")) == [Str("a"), Str("b")]
  {
    TrimPadded();
    CollapseDoubleSpace();
    MultiNameTwo(" a  b ", "a", "b");
  }

  lemma TrimPadded()
    ensures Trim(" a  b ") == "a  b"
  {
    var s := " a  b ";
    assert s[1..] == "a  b ";
    assert TrimStart(s) == "a  b ";
    assert "a  b "[..4] == "a  b";
  }

  lemma CollapseDoubleSpace()
    ensures Collapse("a  b") == "a b"
  {
    assert "a  b"[1..] == "  b";
    assert "  b"[1..] == " b";
    assert " b"[1..] == "b";
    assert Collapse(" b") == " b";
  }

  /** Leading white space does not change the name: `' ' + s` is the single event name `s`. */
  lemma MultiNamePadded(s: string)
    requires s != [] && NoSpace(s)
    ensures MultiName(Str(" " + s)) == [Str(s)]
  {
    TrimStartOneSpace(s);
    assert Trimmed(s);
    assert Trim(" " + s) == Trim(s);
    MultiNameSingle(s);
  }

  lemma {:induction false} SqueezeAppend(a: string, b: string)
    ensures Squeeze(a + b) == Squeeze(a) + Squeeze(b)
  {
    if a != [] {
      assert (a + b)[1..] == a[1..] + b;
      SqueezeAppend(a[1..], b);
    } else {
      assert a + b == b;
    }
  }

  lemma {:induction false} SqueezeSpaces(s: string)
    requires NoneButSpace(s)
    ensures Squeeze(s) == []
  {
    if s != [] {
      SqueezeSpaces(s[1..]);
    }
  }

  lemma {:induction false} SqueezeNoSpace(s: string)
    requires NoSpace(s)
    ensures Squeeze(s) == s
  {
    if s != [] {
      SqueezeNoSpace(s[1..]);
      assert s == [s[0]] + s[1..];
    }
  }

  /** What `TrimStart` leaves is a suffix of its argument. */
  lemma {:induction false} TrimStartSuffix(s: string)
    ensures TrimStart(s) == s[|s| - |TrimStart(s)|..]
  {
    if |s| > 0 && IsSpace(s[0]) {
      TrimStartSuffix(s[1..]);
    }
  }

  /** Dropping a leading run of white space keeps every other character. */
  lemma SqueezeTrimStart(s: string)
    ensures Squeeze(TrimStart(s)) == Squeeze(s)
  {
    var r := TrimStart(s);
    var k := |s| - |r|;
    TrimStartSuffix(s);
    assert s == s[..k] + r;
    SqueezeAppend(s[..k], r);
    SqueezeSpaces(s[..k]);
  }

  /** Dropping a trailing run of white space keeps every other character. */
  lemma SqueezeTrimEnd(s: string)
    ensures Squeeze(TrimEnd(s)) == Squeeze(s)
  {
    var r := TrimEnd(s);
    assert s == r + s[|r|..];
    SqueezeAppend(r, s[|r|..]);
    SqueezeSpaces(s[|r|..]);
  }

  /** Splitting loses no character other than white space, and keeps their order. */
  lemma {:induction false} SplitKeepsText(s: string)
    ensures Concat(Split(s)) == Squeeze(s)
    decreases |s|
  {
    var i := FirstSpace(s);
    if i == |s| {
      SqueezeNoSpace(s);
      assert Concat([s]) == s + Concat([]);
    } else {
      var rest := TrimStart(s[i..]);
      SplitKeepsText(rest);
      SplitStep(s, i, rest);
      SqueezeStep(s, i, rest);
    }
  }

  lemma SqueezeStep(s: string, i: nat, rest: string)
    requires i == FirstSpace(s) && i < |s| && rest == TrimStart(s[i..])
    ensures Squeeze(s) == s[..i] + Squeeze(rest)
  {
    var head, tail := s[..i], s[i..];
    assert s == head + tail;
    SqueezeAppend(head, tail);
    SqueezeNoSpace(head);
    SqueezeTrimStart(tail);
  }

  lemma SplitStep(s: string, i: nat, rest: string)
    requires i == FirstSpace(s) && i < |s| && rest == TrimStart(s[i..])
    ensures |rest| < |s|
    ensures Concat(Split(s)) == s[..i] + Concat(Split(rest))
  {
    var r := Split(rest);
    assert Split(s) == [s[..i]] + r;
    assert ([s[..i]] + r)[1..] == r;
  }

  /**
   * The names of a string are its non-white-space characters, in order, cut
   * into pieces that hold no white space.
   */
  lemma TokensKeepText(s: string)
    ensures Concat(Tokens(s)) == Squeeze(s)
  {
    SplitKeepsText(Trim(s));
    SqueezeTrimEnd(TrimStart(s));
    SqueezeTrimStart(s);
  }
}
