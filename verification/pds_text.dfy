/** The line-by-line front end of the PDS compressor
    (sw/wfx-pds-compress.py): `#define`, the `#ifdef` stack, comment
    stripping, white-space removal and the rewriting of numbers. The
    regular expressions of the script are modelled by the character scans
    they perform. */
module PdsText {
  import opened Wrappers
  import opened GitDescribe
  import opened Numerals
  import opened SeqFacts

  /** `val` without one leading and one trailing double quote, where it has
      them (the two `re.sub` calls of `add_define`). */
  function StripQuotes(val: string): (r: string)
    ensures |val| - 2 <= |r| <= |val|
  {
    var t := if |val| > 0 && val[0] == '"' then val[1..] else val;
    if |t| > 0 && t[|t| - 1] == '"' then t[..|t| - 1] else t
  }

  /** Quoting is undone, only one quote is taken from each end, and an
      unquoted value is kept as it is. */
  lemma StripQuotesSpec(x: string)
    ensures StripQuotes("\"" + x + "\"") == x
    ensures StripQuotes("\"\"" + x + "\"\"") == "\"" + x + "\""
    ensures (|x| == 0 || (x[0] != '"' && x[|x| - 1] != '"')) ==> StripQuotes(x) == x
  {
    assert ("\"" + x + "\"")[1..] == x + "\"";
    assert (x + "\"")[..|x|] == x;
    assert ("\"\"" + x + "\"\"")[1..] == "\"" + x + "\"\"";
    assert ("\"" + x + "\"\"")[..|x| + 2] == "\"" + x + "\"";
  }

  /** A character of the digit pattern `[a-fA-F0-9_]`. */
  predicate IsHexOrSep(c: char)
  {
    IsDigit(c, 16) || c == '_'
  }

  predicate HexRun(s: string)
  {
    |s| > 0 && forall i :: 0 <= i < |s| ==> IsHexOrSep(s[i])
  }

  /** The token pattern `^-?(0[xb])?[a-fA-F0-9_]+$` that a dictionary value
      must match. */
  predicate ValidToken(s: string)
  {
    var t := if |s| > 0 && s[0] == '-' then s[1..] else s;
    HexRun(t) || (|t| >= 2 && t[0] == '0' && (t[1] == 'x' || t[1] == 'b') && HexRun(t[2..]))
  }

  /** The value `add_define` stores: one level of look-up through the
      existing definitions, then the quotes stripped. */
  function Resolve(defs: map<string, string>, val: string): string
  {
    StripQuotes(if val in defs then defs[val] else val)
  }

  /** A value longer than one character that is not a valid token draws a
      warning. */
  predicate BadValue(v: string)
  {
    |v| > 1 && !ValidToken(v)
  }

  /** Only one level of indirection is followed: a definition whose stored
      value is itself the name of a definition resolves to that name. */
  lemma ResolveOneLevel(defs: map<string, string>, val: string)
    requires val in defs && defs[val] in defs
    requires |defs[val]| == 0 || (defs[val][0] != '"' && defs[val][|defs[val]| - 1] != '"')
    ensures Resolve(defs, val) == defs[val]
  {
    StripQuotesSpec(defs[val]);
  }

  /** A quoted literal that does not name a definition is stored without
      its quotes. */
  lemma ResolveQuoted(defs: map<string, string>, x: string)
    requires "\"" + x + "\"" !in defs
    ensures Resolve(defs, "\"" + x + "\"") == x
  {
    StripQuotesSpec(x);
  }

  /** A preprocessor line, as the directive patterns of `handle_ifdef_stack`
      classify it: a well-formed `#ifdef NAME` / `#ifndef NAME`, `#else` or
      `#endif`, one of those with trailing text (reported as bad), or any
      other text. */
  datatype Line = IfDef(name: string, negated: bool) | BadIfDef | Else | BadElse | EndIf | BadEndIf | Text(s: string)

  /** What one line does to the `#ifdef` stack: the new stack, the text
      passed on, and whether an error was reported. */
  datatype IfdefOutcome = IfdefOutcome(stack: seq<bool>, out: string, report: bool)

  /** `handle_ifdef_stack`. The top of the stack is whether text is being
      kept. Indexing an empty stack, or `stack[-2]` of a one-entry stack,
      raises IndexError. */
  function IfdefStep(stack: seq<bool>, line: Line, defs: set<string>): (r: Result<IfdefOutcome, PyError>)
    ensures r.Err? ==> r.error == IndexError && |stack| < 2
    ensures r.Ok? && line.IfDef? ==> |r.value.stack| == |stack| + 1
    ensures r.Ok? && line.EndIf? ==> |r.value.stack| == |stack| - 1
    ensures r.Ok? && !line.IfDef? && !line.EndIf? ==> |r.value.stack| == |stack|
    ensures r.Ok? && !line.Text? ==> r.value.out == ""
  {
    match line
    case IfDef(name, negated) =>
      if (name in defs) != negated then
        if |stack| == 0 then Err(IndexError) else Ok(IfdefOutcome(stack + [stack[|stack| - 1]], "", false))
      else Ok(IfdefOutcome(stack + [false], "", false))
    case Else =>
      if |stack| < 2 then Err(IndexError)
      else if stack[|stack| - 2] then Ok(IfdefOutcome(stack[..|stack| - 1] + [!stack[|stack| - 1]], "", false))
      else Ok(IfdefOutcome(stack, "", stack[|stack| - 1]))
    case EndIf =>
      if |stack| == 0 then Err(IndexError) else Ok(IfdefOutcome(stack[..|stack| - 1], "", |stack| == 1))
    case Text(s) =>
      if |stack| == 0 then Err(IndexError) else Ok(IfdefOutcome(stack, if stack[|stack| - 1] then s else "", false))
    case BadIfDef => Ok(IfdefOutcome(stack, "", true))
    case BadElse => Ok(IfdefOutcome(stack, "", true))
    case BadEndIf => Ok(IfdefOutcome(stack, "", true))
  }

  /** A well-formed stack: the file level at the bottom is active, and a
      level is active only if the level enclosing it is. */
  predicate Nested(stack: seq<bool>)
  {
    |stack| >= 1 && stack[0] && forall i :: 0 < i < |stack| ==> stack[i] ==> stack[i - 1]
  }

  /** Every enclosing condition holds. */
  predicate Active(stack: seq<bool>)
  {
    forall i :: 0 <= i < |stack| ==> stack[i]
  }

  lemma {:induction false} TopIsActive(stack: seq<bool>)
    requires Nested(stack)
    ensures stack[|stack| - 1] <==> Active(stack)
  {
    if stack[|stack| - 1] {
      forall k | 0 <= k < |stack|
        ensures stack[k]
      {
        ActiveBelow(stack, k);
      }
    }
  }

  lemma {:induction false} ActiveBelow(stack: seq<bool>, k: nat)
    requires Nested(stack) && k < |stack| && stack[|stack| - 1]
    ensures stack[k]
    decreases |stack| - k
  {
    if k < |stack| - 1 {
      ActiveBelow(stack, k + 1);
      assert stack[k + 1] ==> stack[k];
    }
  }

  /** `#ifdef`/`#ifndef` push "parent active and condition holds"; `#else`
      flips the top only under an active parent, so the internal error is
      never reported; `#endif` pops, reporting only the file level; text
      passes exactly when every enclosing condition holds. Each keeps the
      stack nested. */
  lemma IfdefStepSpec(stack: seq<bool>, line: Line, defs: set<string>)
    requires Nested(stack)
    ensures line.IfDef? ==>
      (IfdefStep(stack, line, defs)
       == Ok(IfdefOutcome(stack + [stack[|stack| - 1] && ((line.name in defs) != line.negated)], "", false)))
    ensures line.Else? && |stack| >= 2 ==>
      (IfdefStep(stack, line, defs)
       == Ok(IfdefOutcome(stack[..|stack| - 1] + [stack[|stack| - 2] && !stack[|stack| - 1]], "", false)))
    ensures line.Else? && |stack| == 1 ==> IfdefStep(stack, line, defs) == Err(IndexError)
    ensures line.EndIf? ==> IfdefStep(stack, line, defs) == Ok(IfdefOutcome(stack[..|stack| - 1], "", |stack| == 1))
    ensures line.Text? ==> IfdefStep(stack, line, defs) == Ok(IfdefOutcome(stack, if Active(stack) then line.s else "", false))
    ensures IfdefStep(stack, line, defs).Ok? && |IfdefStep(stack, line, defs).value.stack| >= 1 ==>
      Nested(IfdefStep(stack, line, defs).value.stack)
  {
    TopIsActive(stack);
    if line.Else? && |stack| >= 2 && !stack[|stack| - 2] {
      assert !stack[|stack| - 1];
      assert stack[..|stack| - 1] + [false] == stack;
    }
  }

  /** The result of a run of lines: the stack, the text of each line, and
      whether any error was reported. */
  datatype IfdefRunOutcome = IfdefRunOutcome(stack: seq<bool>, outs: seq<string>, report: bool)

  function IfdefRun(stack: seq<bool>, lines: seq<Line>, defs: set<string>): Result<IfdefRunOutcome, PyError>
    decreases |lines|
  {
    if |lines| == 0 then Ok(IfdefRunOutcome(stack, [], false))
    else
      match IfdefStep(stack, lines[0], defs)
      case Err(e) => Err(e)
      case Ok(o) =>
        match IfdefRun(o.stack, lines[1..], defs)
        case Err(e) => Err(e)
        case Ok(r) => Ok(IfdefRunOutcome(r.stack, [o.out] + r.outs, o.report || r.report))
  }

  /** An `#ifdef NAME` block with an `#else` inside active text keeps the
      first branch exactly when NAME is defined and the second otherwise,
      and leaves the stack as it found it. */
  lemma IfdefBlock(stack: seq<bool>, name: string, a: string, b: string, defs: set<string>)
    requires Nested(stack) && Active(stack)
    ensures var r := IfdefRun(stack, [IfDef(name, false), Text(a), Else, Text(b), EndIf], defs);
      r.Ok? && r.value.stack == stack && !r.value.report && |r.value.outs| == 5
      && r.value.outs[1] == (if name in defs then a else "") && r.value.outs[3] == (if name in defs then "" else b)
      && r.value.outs[0] == r.value.outs[2] == r.value.outs[4] == ""
  {
    TopIsActive(stack);
    var lines := [IfDef(name, false), Text(a), Else, Text(b), EndIf];
    var c := name in defs;
    var s1 := stack + [c];
    var s2 := stack + [!c];
    assert s1[..|s1| - 1] + [!s1[|s1| - 1]] == s2;
    assert s2[..|s2| - 1] == stack;
    var o1 := IfdefOutcome(s1, "", false);
    var o2 := IfdefOutcome(s1, if c then a else "", false);
    var o3 := IfdefOutcome(s2, "", false);
    var o4 := IfdefOutcome(s2, if c then "" else b, false);
    var o5 := IfdefOutcome(stack, "", false);
    var r5 := IfdefRunOutcome(stack, [], false);
    RunAt(s2, lines, 4, defs, o5, r5);
    var r4 := IfdefRunOutcome(stack, [o5.out] + r5.outs, false);
    RunAt(s2, lines, 3, defs, o4, r4);
    var r3 := IfdefRunOutcome(stack, [o4.out] + r4.outs, false);
    RunAt(s1, lines, 2, defs, o3, r3);
    var r2 := IfdefRunOutcome(stack, [o3.out] + r3.outs, false);
    RunAt(s1, lines, 1, defs, o2, r2);
    var r1 := IfdefRunOutcome(stack, [o2.out] + r2.outs, false);
    RunAt(stack, lines, 0, defs, o1, r1);
  }

  lemma RunAt(stack: seq<bool>, lines: seq<Line>, k: nat, defs: set<string>, o: IfdefOutcome, r: IfdefRunOutcome)
    requires k < |lines| && IfdefStep(stack, lines[k], defs) == Ok(o) && IfdefRun(o.stack, lines[k + 1..], defs) == Ok(r)
    ensures IfdefRun(stack, lines[k..], defs) == Ok(IfdefRunOutcome(r.stack, [o.out] + r.outs, o.report || r.report))
  {
    assert lines[k..][1..] == lines[k + 1..];
  }

  /** The preprocessor's global state: the dictionary of definitions, the
      `#ifdef` stack of the file being parsed, and whether an error has been
      reported (`g_ret_value` set). */
  class Preprocessor {
    var defs: map<string, string>
    var stack: seq<bool>
    var failed: bool

    constructor ()
      ensures defs == map[] && stack == [true] && !failed
    {
      defs := map[];
      stack := [true];
      failed := false;
    }

    /** `add_define`: a redefinition and a value that is not a valid token
        are reported; the definition is stored either way. */
    method AddDefine(name: string, val: string)
      modifies this
      ensures defs == old(defs)[name := Resolve(old(defs), val)]
      ensures failed == (old(failed) || name in old(defs) || BadValue(Resolve(old(defs), val)))
      ensures stack == old(stack)
    {
      if name in defs {
        failed := true;
      }
      var v := val;
      if v in defs {
        v := defs[v];
      }
      v := StripQuotes(v);
      if |v| > 1 && !ValidToken(v) {
        failed := true;
      }
      defs := defs[name := v];
    }

    /** `handle_ifdef_stack` on one line: the text passed on, or the
        exception raised. */
    method HandleIfdef(line: Line) returns (r: Result<string, PyError>)
      modifies this
      ensures IfdefStep(old(stack), line, old(defs).Keys).Err? ==> r == Err(IfdefStep(old(stack), line, old(defs).Keys).error)
      ensures IfdefStep(old(stack), line, old(defs).Keys).Ok? ==>
        var o := IfdefStep(old(stack), line, old(defs).Keys).value;
        r == Ok(o.out) && stack == o.stack && failed == (old(failed) || o.report)
      ensures defs == old(defs)
    {
      match line {
        case IfDef(name, negated) =>
          if (name in defs) != negated {
            if |stack| == 0 {
              return Err(IndexError);
            }
            stack := stack + [stack[|stack| - 1]];
          } else {
            stack := stack + [false];
          }
          r := Ok("");
        case Else =>
          if |stack| < 2 {
            failed := true;
            return Err(IndexError);
          }
          if stack[|stack| - 2] {
            stack := stack[..|stack| - 1] + [!stack[|stack| - 1]];
          } else if stack[|stack| - 1] {
            failed := true;
          }
          r := Ok("");
        case EndIf =>
          if |stack| == 0 {
            return Err(IndexError);
          }
          stack := stack[..|stack| - 1];
          if |stack| < 1 {
            failed := true;
          }
          r := Ok("");
        case Text(s) =>
          if |stack| == 0 {
            return Err(IndexError);
          }
          r := Ok(if stack[|stack| - 1] then s else "");
        case BadIfDef =>
          failed := true;
          r := Ok("");
        case BadElse =>
          failed := true;
          r := Ok("");
        case BadEndIf =>
          failed := true;
          r := Ok("");
      }
    }
  }

  /** The first position at or after `from` where the two characters `a`
      and `b` follow each other in `s`. */
  function FindPair(s: string, a: char, b: char, from: nat): (r: Option<nat>)
    ensures r.Some? ==> from <= r.value && r.value + 1 < |s|
    decreases |s| - from
  {
    if from + 1 >= |s| then None
    else if s[from] == a && s[from + 1] == b then Some(from)
    else FindPair(s, a, b, from + 1)
  }

  /** The pair at `k` is found when none comes before it, and there is
      none when no position holds it. */
  lemma {:induction false} FindPairAt(s: string, a: char, b: char, from: nat, k: nat)
    requires from <= k && k + 1 < |s| && s[k] == a && s[k + 1] == b
    requires forall i :: from <= i < k ==> !(s[i] == a && s[i + 1] == b)
    ensures FindPair(s, a, b, from) == Some(k)
    decreases k - from
  {
    if from < k {
      FindPairAt(s, a, b, from + 1, k);
    }
  }

  lemma {:induction false} FindPairNone(s: string, a: char, b: char, from: nat)
    requires forall i :: from <= i && i + 1 < |s| ==> !(s[i] == a && s[i + 1] == b)
    ensures FindPair(s, a, b, from) == None
    decreases |s| - from
  {
    if from + 1 < |s| {
      FindPairNone(s, a, b, from + 1);
    }
  }

  predicate NoSlash(s: string)
  {
    forall i :: 0 <= i < |s| ==> s[i] != '/'
  }

  /** The line-comment substitution: everything from the first `//` on
      is dropped. */
  function CutLineComment(s: string): (t: string)
    ensures |t| <= |s|
  {
    match FindPair(s, '/', '/', 0)
    case Some(i) => s[..i]
    case None => s
  }

  /** The inline-comment substitution: each block comment opened and
      closed on the line becomes one space. */
  function ReplaceInline(s: string): (t: string)
    ensures |t| <= |s|
    decreases |s|
  {
    match FindPair(s, '/', '*', 0)
    case None => s
    case Some(i) =>
      match FindPair(s, '*', '/', i + 2)
      case None => s
      case Some(j) => s[..i] + " " + ReplaceInline(s[j + 2..])
  }

  /** The open-comment substitution: the text before a block comment that
      stays open, and whether there was one. */
  function CutOpen(s: string): (c: (string, bool))
    ensures |c.0| <= |s|
  {
    match FindPair(s, '/', '*', 0)
    case Some(i) => (s[..i], true)
    case None => (s, false)
  }

  /** What is left of a line once comments are removed, and whether a
      block comment is left open at its end. */
  datatype Kept = Kept(text: string, open: bool)

  /** The comment handling of `parse` as written, for one line and whether
      a multi-line comment is open: a `//` is cut first, then inline
      comments, then a comment left open. A `//` inside a block comment
      therefore cuts the comment's closing mark away. */
  function StripCommentsAsWritten(raw: string, inComment: bool): (k: Kept)
    ensures |k.text| <= |raw|
    ensures inComment && !k.open ==> FindPair(Strip(raw), '*', '/', 0).Some?
  {
    var line := Strip(raw);
    var rest :=
      if !inComment then Some(line)
      else
        match FindPair(line, '*', '/', 0)
        case None => None
        case Some(j) => Some(line[j + 2..]);
    match rest
    case None => Kept("", true)
    case Some(l) =>
      var (t, o) := CutOpen(ReplaceInline(CutLineComment(l)));
      Kept(Strip(t), o)
  }

  /** Comments removed left to right, whichever kind starts first. */
  function Scan(s: string): Kept
    decreases |s|
  {
    if |s| < 2 then Kept(s, false)
    else if s[0] == '/' && s[1] == '/' then Kept("", false)
    else if s[0] == '/' && s[1] == '*' then
      match FindPair(s, '*', '/', 2)
      case None => Kept("", true)
      case Some(j) => var r := Scan(s[j + 2..]); Kept(" " + r.text, r.open)
    else
      var r := Scan(s[1..]);
      Kept([s[0]] + r.text, r.open)
  }

  /** The comment handling of `parse` with the comments taken in order. */
  function StripComments(raw: string, inComment: bool): Kept
  {
    var line := Strip(raw);
    if inComment then
      match FindPair(line, '*', '/', 0)
      case None => Kept("", true)
      case Some(j) => var r := Scan(line[j + 2..]); Kept(Strip(r.text), r.open)
    else
      var r := Scan(line);
      Kept(Strip(r.text), r.open)
  }

  /** A comment whose text holds `//`, such as a URL, is taken as left
      open as written, which swallows the following lines; taken in order
      it is one space. */
  lemma CommentWithSlashes()
    ensures StripCommentsAsWritten("a/*//*/b", false) == Kept("a", true)
    ensures StripComments("a/*//*/b", false) == Kept("a b", false)
  {
    var s := "a/*//*/b";
    assert Strip(s) == s;
    assert FindPair(s, '/', '/', 0) == Some(3) by {
      FindPairAt(s, '/', '/', 0, 3);
    }
    assert s[..3] == "a/*";
    assert FindPair("a/*", '/', '*', 0) == Some(1);
    assert FindPair("a/*", '*', '/', 3) == None;
    assert "a/*"[..1] == "a";
    assert Strip("a") == "a";
    var t := s[1..];
    assert t == "/*//*/b";
    assert FindPair(t, '*', '/', 2) == Some(4) by {
      FindPairAt(t, '*', '/', 2, 4);
    }
    assert t[6..] == "b";
    assert Scan(t) == Kept(" b", false);
    ScanStep(s);
    assert Scan(s) == Kept("a b", false);
    assert Strip("a b") == "a b";
  }

  /** A character other than a slash is kept and the scan goes on. */
  lemma ScanStep(s: string)
    requires |s| > 0 && s[0] != '/'
    ensures Scan(s) == Kept([s[0]] + Scan(s[1..]).text, Scan(s[1..]).open)
  {
    if |s| == 1 {
      assert [s[0]] + "" == s;
    }
  }

  /** Text without a slash before `t` is kept as it is. */
  lemma {:induction false} ScanPrefix(x: string, t: string)
    requires NoSlash(x)
    ensures Scan(x + t) == Kept(x + Scan(t).text, Scan(t).open)
    decreases |x|
  {
    if |x| > 0 {
      var y := x + t;
      ScanPrefix(x[1..], t);
      ConsAppend(x, t);
      ScanStep(y);
      var r := Scan(t).text;
      ConsAppend(x, r);
    } else {
      assert x + t == t;
    }
  }

  /** Text without a slash has no comment to remove. */
  lemma ScanPlain(x: string)
    requires NoSlash(x)
    ensures Scan(x) == Kept(x, false)
  {
    ScanPrefix(x, "");
    assert x + "" == x;
  }

  /** There is no closing mark in `c`. */
  predicate Unclosed(c: string)
  {
    forall i :: 0 <= i && i + 1 < |c| ==> !(c[i] == '*' && c[i + 1] == '/')
  }

  /** Taken in order, a `//` comment ends the line, and a block comment
      left open ends the line and is reported open. */
  lemma ScanLineComment(x: string, c: string)
    requires NoSlash(x) && Unclosed(c)
    ensures Scan(x + ("//" + c)) == Kept(x, false)
    ensures Scan(x + ("/*" + c)) == Kept(x, true)
  {
    ScanPrefix(x, "//" + c);
    var t := "/*" + c;
    forall k | 2 <= k && k + 1 < |t|
      ensures !(t[k] == '*' && t[k + 1] == '/')
    {
      assert t[k] == c[k - 2] && t[k + 1] == c[k - 1];
    }
    FindPairNone(t, '*', '/', 2);
    ScanPrefix(x, t);
  }

  /** Taken in order, a block comment closed on the line becomes one space,
      whatever it holds, slashes included, and the text after it is
      scanned on. */
  lemma ScanClosedComment(x: string, c: string, rest: string)
    requires NoSlash(x) && Unclosed(c)
    ensures Scan(x + ("/*" + (c + ("*/" + rest)))) == Kept(x + (" " + Scan(rest).text), Scan(rest).open)
  {
    var u := "*/" + rest;
    var v := c + u;
    var s := "/*" + v;
    assert s[2 + |c|] == '*' && s[3 + |c|] == '/';
    forall k | 2 <= k < 2 + |c|
      ensures !(s[k] == '*' && s[k + 1] == '/')
    {
      if k + 1 < 2 + |c| {
        assert s[k] == c[k - 2] && s[k + 1] == c[k - 1];
      } else {
        assert s[k + 1] == '*';
      }
    }
    FindPairAt(s, '*', '/', 2, 2 + |c|);
    assert s[4 + |c|..] == rest;
    ScanPrefix(x, s);
  }

  /** Inside a multi-line comment a line without the closing mark is
      dropped, and a line with one continues after it. */
  lemma InsideComment(raw: string, c: string, rest: string)
    requires Strip(raw) == raw && Unclosed(raw)
    requires Strip(c + "*/" + rest) == c + "*/" + rest && Unclosed(c)
    ensures StripComments(raw, true) == Kept("", true)
    ensures StripComments(c + "*/" + rest, true) == Kept(Strip(Scan(rest).text), Scan(rest).open)
  {
    FindPairNone(raw, '*', '/', 0);
    var s := c + "*/" + rest;
    assert s[|c|] == '*' && s[|c| + 1] == '/';
    assert forall k :: 0 <= k < |c| ==> !(s[k] == '*' && s[k + 1] == '/') by {
      forall k | 0 <= k < |c|
        ensures !(s[k] == '*' && s[k + 1] == '/')
      {
        if k + 1 < |c| {
          assert s[k] == c[k] && s[k + 1] == c[k + 1];
        } else {
          assert s[k + 1] == '*';
        }
      }
    }
    FindPairAt(s, '*', '/', 0, |c|);
    assert s[|c| + 2..] == rest;
  }

  /** The white-space substitution: every white-space character is
      dropped. */
  function RemoveSpaces(s: string): (r: string)
    ensures forall i :: 0 <= i < |r| ==> !IsSpace(r[i])
    ensures |r| <= |s|
  {
    if |s| == 0 then "" else (if IsSpace(s[0]) then "" else [s[0]]) + RemoveSpaces(s[1..])
  }

  /** Removing white space works piece by piece and keeps everything
      else. */
  lemma {:induction false} RemoveSpacesSpec(a: string, b: string)
    ensures RemoveSpaces(a + b) == RemoveSpaces(a) + RemoveSpaces(b)
    decreases |a|
  {
    if |a| > 0 {
      RemoveSpacesSpec(a[1..], b);
      assert (a + b)[0] == a[0];
      assert (a + b)[1..] == a[1..] + b;
    } else {
      assert a + b == b;
    }
  }

  lemma {:induction false} RemoveSpacesKeeps(a: string)
    requires forall i :: 0 <= i < |a| ==> !IsSpace(a[i])
    ensures RemoveSpaces(a) == a
    decreases |a|
  {
    if |a| > 0 {
      RemoveSpacesKeeps(a[1..]);
      assert [a[0]] + a[1..] == a;
    }
  }

  /** The three number patterns `replace_numbers` rewrites, in order:
      `0x` followed by `[0-9a-fA-F_]+`, `0b` followed by `[0-1_]+`, and a
      bare `[0-9_]+`. */
  datatype Radix = Hex | Bin | Dec

  function Base(r: Radix): nat
  {
    match r
    case Hex => 16
    case Bin => 2
    case Dec => 10
  }

  function Prefix(r: Radix): string
  {
    match r
    case Hex => "0x"
    case Bin => "0b"
    case Dec => ""
  }

  /** A character of the run after the prefix: a digit or `_`. */
  predicate InRun(c: char, r: Radix)
  {
    c == '_' || IsDigit(c, Base(r))
  }

  predicate AllInRun(s: string, r: Radix)
  {
    forall i :: 0 <= i < |s| ==> InRun(s[i], r)
  }

  /** The length of the longest run at the start of `s`. */
  function RunLen(s: string, r: Radix): (n: nat)
    ensures n <= |s|
    decreases |s|
  {
    if |s| == 0 || !InRun(s[0], r) then 0 else 1 + RunLen(s[1..], r)
  }

  lemma {:induction false} RunLenSpec(s: string, r: Radix)
    ensures AllInRun(s[..RunLen(s, r)], r)
    ensures RunLen(s, r) < |s| ==> !InRun(s[RunLen(s, r)], r)
    ensures AllInRun(s, r) ==> RunLen(s, r) == |s|
    decreases |s|
  {
    if |s| > 0 && InRun(s[0], r) {
      RunLenSpec(s[1..], r);
      var n := RunLen(s[1..], r);
      assert s[..n + 1] == [s[0]] + s[1..][..n];
    }
  }

  /** Without the separators a run is a digit string of its base. */
  lemma {:induction false} RemoveUnderscoresDigits(s: string, r: Radix)
    requires AllInRun(s, r)
    ensures AllDigits(RemoveUnderscores(s), Base(r))
    decreases |s|
  {
    if |s| > 0 {
      RemoveUnderscoresDigits(s[1..], r);
    }
  }

  /** `int(n without '_', base)`: ValueError when only separators were
      there. */
  function ReadRun(s: string, r: Radix): (v: Result<nat, PyError>)
    requires AllInRun(s, r)
  {
    if |RemoveUnderscores(s)| == 0 then Err(ValueError) else Ok(RunValue(s, r))
  }

  /** The value of the digits of a run. */
  function RunValue(s: string, r: Radix): nat
    requires AllInRun(s, r)
  {
    RemoveUnderscoresDigits(s, r);
    Value(RemoveUnderscores(s), Base(r))
  }

  /** A number as the pass writes it back: hexadecimal and binary numbers
      in decimal (`str`), decimal ones in upper-case hexadecimal (`"%X"`). */
  function Written(v: nat, r: Radix): string
  {
    if r == Dec then Format(v, 16, true) else Format(v, 10, false)
  }

  /** Where a match of the pattern starts in `s`, its end. */
  function MatchAt(s: string, r: Radix): Option<nat>
  {
    var p := |Prefix(r)|;
    if p < |s| && s[..p] == Prefix(r) && InRun(s[p], r) then Some(p + RunLen(s[p..], r)) else None
  }

  /** One `re.sub` of a number pattern: each leftmost longest match is
      replaced by its value written back, the rest is kept. */
  function Pass(s: string, r: Radix): (t: Result<string, PyError>)
    ensures t.Err? ==> t.error == ValueError
    ensures (forall i :: 0 <= i < |s| ==> !InRun(s[i], r)) ==> t == Ok(s)
    decreases |s|
  {
    if |s| == 0 then Ok("")
    else if MatchAt(s, r).Some? then
      var n := MatchAt(s, r).value;
      RunLenSpec(s[|Prefix(r)|..], r);
      assert s[|Prefix(r)|..n] == s[|Prefix(r)|..][..RunLen(s[|Prefix(r)|..], r)];
      match ReadRun(s[|Prefix(r)|..n], r)
      case Err(e) => Err(e)
      case Ok(v) =>
        match Pass(s[n..], r)
        case Err(e) => Err(e)
        case Ok(rest) => Ok(Written(v, r) + rest)
    else
      assert (forall i :: 0 <= i < |s| ==> !InRun(s[i], r)) ==>
        forall i :: 0 <= i < |s[1..]| ==> !InRun(s[1..][i], r);
      assert [s[0]] + s[1..] == s;
      match Pass(s[1..], r)
      case Err(e) => Err(e)
      case Ok(rest) => Ok([s[0]] + rest)
  }

  /** `replace_numbers`: the hexadecimal pass, the binary pass, then the
      decimal pass. */
  function ReplaceNumbers(s: string): (t: Result<string, PyError>)
    ensures t.Err? ==> t.error == ValueError
    ensures (forall i :: 0 <= i < |s| ==> s[i] != '_' && !IsDigit(s[i], 16)) ==> t == Ok(s)
  {
    match Pass(s, Hex)
    case Err(e) => Err(e)
    case Ok(s1) =>
      match Pass(s1, Bin)
      case Err(e) => Err(e)
      case Ok(s2) => Pass(s2, Dec)
  }

  /** A pass whose prefix letter does not occur changes nothing. */
  lemma {:induction false} PassKeeps(s: string, r: Radix)
    requires r != Dec && forall i :: 0 <= i < |s| ==> s[i] != Prefix(r)[1]
    ensures Pass(s, r) == Ok(s)
    decreases |s|
  {
    if |s| > 0 {
      if |s| > 2 {
        assert s[..2] != Prefix(r) by {
          assert s[..2][1] == s[1];
        }
      }
      PassKeeps(s[1..], r);
      assert [s[0]] + s[1..] == s;
    }
  }

  /** A whole number of the pass's pattern is replaced by its value
      written back, or raises ValueError when it holds only separators. */
  lemma PassWhole(d: string, r: Radix)
    requires |d| > 0 && AllInRun(d, r)
    ensures Pass(Prefix(r) + d, r)
      == if |RemoveUnderscores(d)| == 0 then Err(ValueError)
         else Ok(Written(RunValue(d, r), r))
  {
    var s := Prefix(r) + d;
    var p := |Prefix(r)|;
    assert s[..p] == Prefix(r) && s[p..] == d;
    RunLenSpec(d, r);
    assert MatchAt(s, r) == Some(|s|);
    assert s[p..|s|] == d by {
      forall i | 0 <= i < |d|
        ensures s[p..|s|][i] == d[i]
      {
        assert s[p + i] == d[i];
      }
    }
    assert ReadRun(s[p..|s|], r) == ReadRun(d, r);
    RemoveUnderscoresDigits(d, r);
    assert Pass(s[|s|..], r) == Ok("") by {
      assert s[|s|..] == "";
    }
    if |RemoveUnderscores(d)| > 0 {
      assert Written(RunValue(d, r), r) + "" == Written(RunValue(d, r), r);
    }
  }

  /** `replace_numbers` keeps the value of a number: a hexadecimal, binary
      or decimal number, separators removed, comes out as the upper-case
      hexadecimal numeral of the same value; a number of separators only
      raises ValueError. */
  lemma ReplaceNumbersValue(d: string, r: Radix)
    requires |d| > 0 && AllInRun(d, r)
    ensures ReplaceNumbers(Prefix(r) + d)
      == if |RemoveUnderscores(d)| == 0 then Err(ValueError)
         else Ok(Format(RunValue(d, r), 16, true))
  {
    var s := Prefix(r) + d;
    RemoveUnderscoresDigits(d, r);
    var t := RemoveUnderscores(d);
    var v := RunValue(d, r);
    match r {
      case Hex =>
        PassWhole(d, Hex);
        if |t| > 0 {
          DecimalPasses(v);
        }
      case Bin =>
        PassKeeps(s, Hex);
        PassWhole(d, Bin);
        if |t| > 0 {
          DecimalPasses(v);
        }
      case Dec =>
        assert s == d;
        PassKeeps(s, Hex);
        PassKeeps(s, Bin);
        PassWhole(d, Dec);
    }
  }

  /** The decimal numeral of `v` passes the binary pass unchanged and the
      decimal pass turns it into the hexadecimal numeral of `v`. */
  lemma DecimalPasses(v: nat)
    ensures Pass(Format(v, 10, false), Bin) == Ok(Format(v, 10, false))
    ensures Pass(Format(v, 10, false), Dec) == Ok(Format(v, 16, true))
  {
    var dec := Format(v, 10, false);
    PassKeeps(dec, Bin);
    assert Prefix(Dec) + dec == dec;
    PassWhole(dec, Dec);
    RemoveUnderscoresKeeps(dec);
    FormatValue(v, 10, false);
  }
}
