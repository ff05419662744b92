/** The back end of the PDS compressor (sw/wfx-pds-compress.py), on the
    text the front end produced: the token classes, the syntax check, the
    outer braces, the collapse of commas before a closing bracket, the split
    into top-level members for the C and Rust outputs, and the size check. */
module PdsSyntax {
  import opened Wrappers
  import opened GitDescribe

  /** Python's `\w` on ASCII: letters, digits and `_`. */
  predicate IsWordChar(c: char)
  {
    'a' <= c <= 'z' || 'A' <= c <= 'Z' || '0' <= c <= '9' || c == '_'
  }

  /** The class `token_iter` gives a character: `d` for a digit, `-` or
      `A`..`F`, `w` for any other word character, else the character
      itself. No character is classed as the start or end marker. */
  function TokenOf(c: char): (t: char)
    ensures t != 'E' && t != 'S'
  {
    if c == '-' || '0' <= c <= '9' || 'A' <= c <= 'F' then 'd'
    else if IsWordChar(c) then 'w'
    else c
  }

  /** `token_iter`: one class per character, then the end marker. */
  function Tokens(s: string): (t: seq<char>)
    ensures |t| == |s| + 1 && t[|s|] == 'E'
    ensures forall i :: 0 <= i < |s| ==> t[i] == TokenOf(s[i])
  {
    seq(|s|, i requires 0 <= i < |s| => TokenOf(s[i])) + ['E']
  }

  /** The transition table of `check_syntax`: which token may follow which
      state. */
  predicate Follows(state: char, tok: char)
  {
    match state
    case 'S' => tok in "{["
    case 'w' => tok in "}]:,"
    case 'd' => tok in "}],d"
    case ':' => tok in "{[wd"
    case ',' => tok in "{[}]wdE"
    case '{' => tok in "{[}]w"
    case '[' => tok in "{[}]wd"
    case '}' => tok in ",]}E"
    case ']' => tok in ",]}E"
    case _ => false
  }

  predicate IsOpener(c: char)
  {
    c == '{' || c == '['
  }

  predicate IsCloser(c: char)
  {
    c == '}' || c == ']'
  }

  /** The opening bracket a closing one must match. */
  function OpenerOf(c: char): char
  {
    if c == '}' then '{' else '['
  }

  /** How `check_syntax` as written ends: it returns True or False, or a
      `pop` from the empty bracket stack raises IndexError. */
  datatype Verdict = Accept | Reject | Crash

  /** `check_syntax` as written, from state `cur` with bracket stack
      `stack` (top last). */
  function SyntaxAsWritten(cur: char, stack: seq<char>, toks: seq<char>): Verdict
    decreases |toks|
  {
    if |toks| == 0 then Accept
    else
      var tok := toks[0];
      if !Follows(cur, tok) then Reject
      else if IsOpener(tok) then SyntaxAsWritten(tok, stack + [tok], toks[1..])
      else if IsCloser(tok) then
        if |stack| == 0 then Crash
        else if stack[|stack| - 1] != OpenerOf(tok) then Reject
        else SyntaxAsWritten(tok, stack[..|stack| - 1], toks[1..])
      else if tok == 'E' && |stack| > 0 then Reject
      else SyntaxAsWritten(tok, stack, toks[1..])
  }

  /** `check_syntax`: the loop over the tokens with its bracket stack. */
  method CheckSyntax(toks: seq<char>) returns (v: Verdict)
    ensures v == SyntaxAsWritten('S', [], toks)
  {
    var cur := 'S';
    var stack: seq<char> := [];
    var i := 0;
    while i < |toks|
      invariant 0 <= i <= |toks|
      invariant SyntaxAsWritten('S', [], toks) == SyntaxAsWritten(cur, stack, toks[i..])
    {
      assert toks[i..][0] == toks[i] && toks[i..][1..] == toks[i + 1..];
      var tok := toks[i];
      if !Follows(cur, tok) {
        return Reject;
      }
      cur := tok;
      if IsOpener(tok) {
        stack := stack + [tok];
      }
      if IsCloser(tok) {
        if |stack| == 0 {
          return Crash;
        }
        var top := stack[|stack| - 1];
        stack := stack[..|stack| - 1];
        if top != OpenerOf(tok) {
          return Reject;
        }
      }
      if tok == 'E' && |stack| > 0 {
        return Reject;
      }
      i := i + 1;
    }
    return Accept;
  }

  /** The syntax check with a closing bracket on an empty stack rejected
      like any other unmatched bracket. */
  function Syntax(cur: char, stack: seq<char>, toks: seq<char>): bool
    decreases |toks|
  {
    if |toks| == 0 then true
    else
      var tok := toks[0];
      if !Follows(cur, tok) then false
      else if IsOpener(tok) then Syntax(tok, stack + [tok], toks[1..])
      else if IsCloser(tok) then
        if |stack| == 0 || stack[|stack| - 1] != OpenerOf(tok) then false
        else Syntax(tok, stack[..|stack| - 1], toks[1..])
      else if tok == 'E' && |stack| > 0 then false
      else Syntax(tok, stack, toks[1..])
  }

  /** The two agree wherever the script does not crash, and the crash is a
      rejection in the corrected check. */
  lemma {:induction false} SyntaxAsWrittenAgrees(cur: char, stack: seq<char>, toks: seq<char>)
    ensures (SyntaxAsWritten(cur, stack, toks) == Accept) == Syntax(cur, stack, toks)
    decreases |toks|
  {
    if |toks| > 0 {
      var tok := toks[0];
      if IsOpener(tok) {
        SyntaxAsWrittenAgrees(tok, stack + [tok], toks[1..]);
      } else if IsCloser(tok) && |stack| > 0 {
        SyntaxAsWrittenAgrees(tok, stack[..|stack| - 1], toks[1..]);
      } else {
        SyntaxAsWrittenAgrees(tok, stack, toks[1..]);
      }
    }
  }

  /** A stray closing bracket after the outer object, as in `{}}`, passes
      the transition table and pops the empty stack: the script raises
      IndexError instead of reporting the error. */
  lemma ExtraCloserCrashes()
    ensures SyntaxAsWritten('S', [], Tokens("{}}")) == Crash
    ensures !Syntax('S', [], Tokens("{}}"))
  {
    var t := Tokens("{}}");
    assert t == ['{', '}', '}', 'E'];
    assert t[1..] == ['}', '}', 'E'] && t[1..][1..] == ['}', 'E'];
    assert SyntaxAsWritten('}', [], ['}', 'E']) == Crash;
    SyntaxAsWrittenAgrees('S', [], t);
  }

  /** Each token may follow the one before it, the first may follow `cur`. */
  predicate Chain(cur: char, toks: seq<char>)
  {
    (|toks| > 0 ==> Follows(cur, toks[0]))
    && forall i :: 0 < i < |toks| ==> Follows(toks[i - 1], toks[i])
  }

  /** The brackets alone: each closing bracket pops the opening bracket of
      its own kind; the stack left at the end, or None at a mismatch. */
  function Brackets(stack: seq<char>, toks: seq<char>): Option<seq<char>>
    decreases |toks|
  {
    if |toks| == 0 then Some(stack)
    else if IsOpener(toks[0]) then Brackets(stack + [toks[0]], toks[1..])
    else if IsCloser(toks[0]) then
      if |stack| == 0 || stack[|stack| - 1] != OpenerOf(toks[0]) then None
      else Brackets(stack[..|stack| - 1], toks[1..])
    else Brackets(stack, toks[1..])
  }

  /** A token stream as `token_iter` makes it: the end marker last and
      nowhere else. */
  predicate EndsOnce(toks: seq<char>)
  {
    |toks| > 0 && toks[|toks| - 1] == 'E' && forall i :: 0 <= i < |toks| - 1 ==> toks[i] != 'E'
  }

  /** The check accepts exactly when every token may follow the one before
      it and the brackets match, `}` closing `{` and `]` closing `[`, with
      none left open at the end. */
  lemma {:induction false} SyntaxSpec(cur: char, stack: seq<char>, toks: seq<char>)
    requires EndsOnce(toks)
    ensures Syntax(cur, stack, toks) <==> Chain(cur, toks) && Brackets(stack, toks) == Some([])
    decreases |toks|
  {
    var tok := toks[0];
    var rest := toks[1..];
    if |toks| == 1 {
      assert rest == [];
    } else {
      assert EndsOnce(rest) by {
        assert forall i :: 0 <= i < |rest| - 1 ==> rest[i] == toks[i + 1];
      }
      assert Chain(cur, toks) <==> Follows(cur, tok) && Chain(tok, rest) by {
        assert forall i :: 0 < i < |rest| ==> rest[i - 1] == toks[i] && rest[i] == toks[i + 1];
        if Follows(cur, tok) && Chain(tok, rest) {
          forall i | 0 < i < |toks|
            ensures Follows(toks[i - 1], toks[i])
          {
            if i > 1 {
              assert rest[i - 2] == toks[i - 1] && rest[i - 1] == toks[i];
            }
          }
        }
      }
      if IsOpener(tok) {
        SyntaxSpec(tok, stack + [tok], rest);
      } else if IsCloser(tok) && |stack| > 0 {
        SyntaxSpec(tok, stack[..|stack| - 1], rest);
      } else {
        SyntaxSpec(tok, stack, rest);
      }
    }
  }

  /** The check on the text of a PDS file. */
  lemma FileSyntax(s: string)
    ensures Syntax('S', [], Tokens(s)) <==> Chain('S', Tokens(s)) && Brackets([], Tokens(s)) == Some([])
  {
    SyntaxSpec('S', [], Tokens(s));
  }

  /** `fix_outermost_braces`: text whose first token is not an opening
      bracket is wrapped in `{` and `}`. */
  function FixOutermost(s: string): (r: string)
    ensures |r| > 0 && IsOpener(r[0])
    ensures |s| > 0 && IsOpener(s[0]) ==> r == s
  {
    if |s| > 0 && IsOpener(s[0]) then s else "{" + s + "}"
  }

  /** Wrapping is done at most once, and what is wrapped is kept whole
      between the added braces. */
  lemma FixOutermostSpec(s: string)
    ensures FixOutermost(FixOutermost(s)) == FixOutermost(s)
    ensures !(|s| > 0 && IsOpener(s[0])) ==>
      |FixOutermost(s)| == |s| + 2 && FixOutermost(s)[1..|s| + 1] == s && FixOutermost(s)[|s| + 1] == '}'
    ensures Follows('S', Tokens(FixOutermost(s))[0])
  {
  }

  /** One pass of the comma collapse: a comma directly before `closer` is
      dropped (`re.sub(r',\]', ']', ...)` and `re.sub(r',}', '}', ...)`). */
  function DropCommaBefore(s: string, closer: char): (r: string)
    ensures |r| <= |s|
    decreases |s|
  {
    if |s| == 0 then ""
    else if |s| >= 2 && s[0] == ',' && s[1] == closer then [closer] + DropCommaBefore(s[2..], closer)
    else [s[0]] + DropCommaBefore(s[1..], closer)
  }

  /** The collapse of the joined text: the `]` pass, then the `}` pass. */
  function Collapse(s: string): string
  {
    DropCommaBefore(DropCommaBefore(s, ']'), '}')
  }

  /** Every comma that directly precedes a closing bracket is removed, the
      rest is kept. */
  function Uncomma(s: string): string
    decreases |s|
  {
    if |s| == 0 then ""
    else if |s| >= 2 && s[0] == ',' && IsCloser(s[1]) then Uncomma(s[1..])
    else [s[0]] + Uncomma(s[1..])
  }

  /** The first character of one pass. */
  lemma DropCommaBeforeHead(s: string, closer: char)
    requires |s| > 0
    ensures |DropCommaBefore(s, closer)| > 0
    ensures DropCommaBefore(s, closer)[0] == if |s| >= 2 && s[0] == ',' && s[1] == closer then closer else s[0]
  {
  }

  /** The two passes in a row remove exactly the commas before a closing
      bracket: removing one before `]` never puts another before `}`. */
  lemma {:induction false} CollapseSpec(s: string)
    ensures Collapse(s) == Uncomma(s)
    decreases |s|
  {
    if |s| >= 2 && s[0] == ',' && s[1] == ']' {
      CollapseSpec(s[2..]);
      var p := DropCommaBefore(s[2..], ']');
      assert DropCommaBefore(s, ']') == [']'] + p;
      assert ([']'] + p)[1..] == p;
      assert s[1..][1..] == s[2..];
    } else if |s| >= 2 && s[0] == ',' && s[1] == '}' {
      CollapseSpec(s[2..]);
      assert s[1..][1..] == s[2..];
      var p := DropCommaBefore(s[2..], ']');
      assert DropCommaBefore(s[1..], ']') == ['}'] + p;
      assert DropCommaBefore(s, ']') == [','] + (['}'] + p);
      assert ([','] + (['}'] + p))[2..] == p;
    } else if |s| > 0 {
      CollapseSpec(s[1..]);
      var p := DropCommaBefore(s[1..], ']');
      assert DropCommaBefore(s, ']') == [s[0]] + p;
      assert ([s[0]] + p)[1..] == p;
      if |s| >= 2 {
        DropCommaBeforeHead(s[1..], ']');
        assert ([s[0]] + p)[1] == p[0];
      }
    }
  }

  /** Without two commas in a row, no comma is left before a closing
      bracket. */
  predicate NoDoubleComma(s: string)
  {
    forall i :: 0 <= i < |s| - 1 ==> !(s[i] == ',' && s[i + 1] == ',')
  }

  predicate NoCommaBeforeCloser(s: string)
  {
    forall i :: 0 <= i < |s| - 1 ==> !(s[i] == ',' && IsCloser(s[i + 1]))
  }

  lemma {:induction false} CollapseClean(s: string)
    requires NoDoubleComma(s)
    ensures NoCommaBeforeCloser(Collapse(s))
    decreases |s|
  {
    CollapseSpec(s);
    UncommaClean(s);
  }

  lemma {:induction false} UncommaClean(s: string)
    requires NoDoubleComma(s)
    ensures NoCommaBeforeCloser(Uncomma(s))
    ensures |s| > 0 ==> |Uncomma(s)| > 0 && Uncomma(s)[0] == (if |s| >= 2 && s[0] == ',' && IsCloser(s[1]) then s[1] else s[0])
    decreases |s|
  {
    if |s| > 0 {
      UncommaClean(s[1..]);
      if !(|s| >= 2 && s[0] == ',' && IsCloser(s[1])) {
        var u := Uncomma(s[1..]);
        assert Uncomma(s) == [s[0]] + u;
        if |s| >= 2 && s[0] == ',' {
          assert s[1] != ',';
          assert u[0] == s[1];
        }
        forall i | 0 <= i < |[s[0]] + u| - 1
          ensures !(([s[0]] + u)[i] == ',' && IsCloser(([s[0]] + u)[i + 1]))
        {
          if i > 0 {
            assert ([s[0]] + u)[i] == u[i - 1] && ([s[0]] + u)[i + 1] == u[i];
          }
        }
      }
    }
  }

  /** The bracket depth after one character. */
  function Step(depth: int, c: char): int
  {
    if IsOpener(c) then depth + 1 else if IsCloser(c) then depth - 1 else depth
  }

  /** The bracket depth after a whole text. */
  function DepthAfter(s: string, depth: int): int
    decreases |s|
  {
    if |s| == 0 then depth else DepthAfter(s[1..], Step(depth, s[0]))
  }

  /** The top-level pieces of a text, as `formatc`, `formatrust` and
      `check_sizes` cut it, and what is left after the last piece. */
  datatype Split = Split(pieces: seq<string>, rest: string)

  /** The cut: a piece ends at each closing bracket that brings the depth
      back to 1 and holds everything since the previous piece; `buf` is
      the text of the piece under way. */
  function SplitTop(s: string, depth: int, buf: string): Split
    decreases |s|
  {
    if |s| == 0 then Split([], buf)
    else
      var d := Step(depth, s[0]);
      if IsCloser(s[0]) && d == 1 then
        var t := SplitTop(s[1..], d, "");
        Split([buf + [s[0]]] + t.pieces, t.rest)
      else SplitTop(s[1..], d, buf + [s[0]])
  }

  /** The first step of the cut. */
  lemma SplitUnfold(s: string, depth: int, buf: string)
    requires |s| > 0
    ensures var d := Step(depth, s[0]);
      SplitTop(s, depth, buf) ==
        if IsCloser(s[0]) && d == 1 then
          Split([buf + [s[0]]] + SplitTop(s[1..], d, "").pieces, SplitTop(s[1..], d, "").rest)
        else SplitTop(s[1..], d, buf + [s[0]])
  {
  }

  /** Every piece ends with the closing bracket that ended it. */
  lemma {:induction false} PiecesEndInCloser(s: string, depth: int, buf: string)
    ensures var ps := SplitTop(s, depth, buf).pieces;
      forall k :: 0 <= k < |ps| ==> |ps[k]| > 0 && IsCloser(ps[k][|ps[k]| - 1])
    decreases |s|
  {
    if |s| > 0 {
      var d := Step(depth, s[0]);
      SplitUnfold(s, depth, buf);
      if IsCloser(s[0]) && d == 1 {
        PiecesEndInCloser(s[1..], d, "");
        var p := buf + [s[0]];
        var t := SplitTop(s[1..], d, "").pieces;
        assert p[|p| - 1] == s[0];
        assert forall k :: 0 < k < |[p] + t| ==> ([p] + t)[k] == t[k - 1];
      } else {
        PiecesEndInCloser(s[1..], d, buf + [s[0]]);
      }
    }
  }

  function Concat(ps: seq<string>): string
    decreases |ps|
  {
    if |ps| == 0 then "" else ps[0] + Concat(ps[1..])
  }

  /** The cut loses nothing and reorders nothing: the pieces and the rest,
      put back together, are the text. */
  lemma {:induction false} SplitCovers(s: string, depth: int, buf: string)
    ensures Concat(SplitTop(s, depth, buf).pieces) + SplitTop(s, depth, buf).rest == buf + s
    decreases |s|
  {
    if |s| > 0 {
      var d := Step(depth, s[0]);
      assert buf + s == (buf + [s[0]]) + s[1..];
      if IsCloser(s[0]) && d == 1 {
        SplitCovers(s[1..], d, "");
        var t := SplitTop(s[1..], d, "");
        var p := buf + [s[0]];
        assert ([p] + t.pieces)[0] == p && ([p] + t.pieces)[1..] == t.pieces;
        assert Concat([p] + t.pieces) == p + Concat(t.pieces);
        assert (p + Concat(t.pieces)) + t.rest == p + (Concat(t.pieces) + t.rest);
      } else {
        SplitCovers(s[1..], d, buf + [s[0]]);
      }
    }
  }

  /** `buf[1:]`: the piece without the character before its member, the
      opening brace of the outer object or the comma after the previous
      member. */
  function Drop1(p: string): string
  {
    if |p| == 0 then "" else p[1..]
  }

  /** The members the outputs carry, one per piece. */
  function Members(ps: seq<string>): (ms: seq<string>)
    ensures |ms| == |ps|
    decreases |ps|
  {
    if |ps| == 0 then [] else [Drop1(ps[0])] + Members(ps[1..])
  }

  /** No closing bracket in `x`, read from `depth`, brings the depth back
      to 1. */
  predicate Quiet(x: string, depth: int)
    decreases |x|
  {
    |x| == 0 || (!(IsCloser(x[0]) && Step(depth, x[0]) == 1) && Quiet(x[1..], Step(depth, x[0])))
  }

  /** Text that ends no piece joins the piece under way. */
  lemma {:induction false} SplitQuiet(x: string, rest: string, depth: int, buf: string)
    requires Quiet(x, depth)
    ensures SplitTop(x + rest, depth, buf) == SplitTop(rest, DepthAfter(x, depth), buf + x)
    decreases |x|
  {
    if |x| > 0 {
      var d := Step(depth, x[0]);
      assert (x + rest)[0] == x[0] && (x + rest)[1..] == x[1..] + rest;
      SplitUnfold(x + rest, depth, buf);
      assert !(IsCloser(x[0]) && d == 1) && Quiet(x[1..], d);
      assert (buf + [x[0]]) + x[1..] == buf + x;
      SplitQuiet(x[1..], rest, d, buf + [x[0]]);
      assert DepthAfter(x, depth) == DepthAfter(x[1..], d);
    } else {
      assert x + rest == rest && buf + x == buf;
    }
  }

  /** A member with a bracketed value: its last character closes the
      bracket it opened, and nothing before it returns to the top level. */
  predicate Member(m: string)
  {
    |m| > 0 && IsCloser(m[|m| - 1]) && Quiet(m[..|m| - 1], 1) && DepthAfter(m[..|m| - 1], 1) == 2
  }

  /** A member at the top level completes the piece under way. */
  lemma SplitMember(m: string, rest: string, buf: string)
    requires Member(m)
    ensures SplitTop(m + rest, 1, buf).pieces == [buf + m] + SplitTop(rest, 1, "").pieces
    ensures SplitTop(m + rest, 1, buf).rest == SplitTop(rest, 1, "").rest
  {
    var n := |m|;
    assert m + rest == m[..n - 1] + ([m[n - 1]] + rest);
    SplitQuiet(m[..n - 1], [m[n - 1]] + rest, 1, buf);
    assert ([m[n - 1]] + rest)[1..] == rest;
    assert (buf + m[..n - 1]) + [m[n - 1]] == buf + m;
  }

  /** The members after the first, each behind its comma. */
  function Tail(ms: seq<string>): string
    decreases |ms|
  {
    if |ms| == 0 then "" else "," + (ms[0] + Tail(ms[1..]))
  }

  lemma MembersCons(p: string, ps: seq<string>)
    ensures Members([p] + ps) == [Drop1(p)] + Members(ps)
  {
    assert ([p] + ps)[0] == p && ([p] + ps)[1..] == ps;
  }

  /** A member behind its comma is one piece. */
  lemma SplitComma(m: string, after: string)
    requires Member(m)
    ensures SplitTop("," + (m + after), 1, "").pieces == ["," + m] + SplitTop(after, 1, "").pieces
    ensures SplitTop("," + (m + after), 1, "").rest == SplitTop(after, 1, "").rest
  {
    var s := "," + (m + after);
    assert s[0] == ',' && s[1..] == m + after;
    SplitUnfold(s, 1, "");
    assert "" + [','] == ",";
    SplitMember(m, after, ",");
  }

  lemma {:induction false} SplitTail(ms: seq<string>, rest: string)
    requires forall k :: 0 <= k < |ms| ==> Member(ms[k])
    ensures Members(SplitTop(Tail(ms) + rest, 1, "").pieces) == ms + Members(SplitTop(rest, 1, "").pieces)
    ensures SplitTop(Tail(ms) + rest, 1, "").rest == SplitTop(rest, 1, "").rest
    decreases |ms|
  {
    if |ms| > 0 {
      var after := Tail(ms[1..]) + rest;
      assert Tail(ms) + rest == "," + (ms[0] + after);
      SplitComma(ms[0], after);
      SplitTail(ms[1..], rest);
      var t := SplitTop(after, 1, "");
      MembersCons("," + ms[0], t.pieces);
      assert Drop1("," + ms[0]) == ms[0];
      assert [ms[0]] + (ms[1..] + Members(SplitTop(rest, 1, "").pieces)) == ms + Members(SplitTop(rest, 1, "").pieces);
    } else {
      assert Tail(ms) + rest == rest;
    }
  }

  /** The object the outputs split: when every member of the outer object
      has a bracketed value, each member becomes one output entry, in
      order. A member with a plain value is carried in the same entry as
      the member after it; when it is the last member, such as `a:1` in
      `{b:{c:2},a:1}`, it stays in the text left over after the last
      bracketed value and is never emitted at all. */
  lemma ObjectMembers(ms: seq<string>)
    requires |ms| > 0
    requires forall k :: 0 <= k < |ms| ==> Member(ms[k])
    ensures Members(SplitTop("{" + (ms[0] + (Tail(ms[1..]) + "}")), 0, "").pieces) == ms
  {
    var body := ms[0] + (Tail(ms[1..]) + "}");
    assert ("{" + body)[0] == '{' && ("{" + body)[1..] == body;
    SplitUnfold("{" + body, 0, "");
    assert "" + ['{'] == "{";
    SplitMember(ms[0], Tail(ms[1..]) + "}", "{");
    SplitTail(ms[1..], "}");
    var t := SplitTop(Tail(ms[1..]) + "}", 1, "");
    MembersCons("{" + ms[0], t.pieces);
    assert Drop1("{" + ms[0]) == ms[0];
    assert SplitTop("}", 1, "").pieces == [];
    assert [ms[0]] + (ms[1..] + []) == ms;
  }

  /** One entry of the C array. */
  function CLine(m: string): string
  {
    "    \"{" + m + "}\",\n"
  }

  function CBody(ms: seq<string>): string
    decreases |ms|
  {
    if |ms| == 0 then "" else CLine(ms[0]) + CBody(ms[1..])
  }

  /** The output grows by one entry per piece the cut emits. */
  lemma CBodyEmit(total: string, out: string, pieces: seq<string>, p: string, ps: seq<string>)
    requires total == out + CBody(Members(pieces)) && pieces == [p] + ps
    ensures total == (out + CLine(Drop1(p))) + CBody(Members(ps))
  {
    MembersCons(p, ps);
    assert ([Drop1(p)] + Members(ps))[1..] == Members(ps);
  }

  /** One entry of the Rust array. */
  function RustLine(m: string): string
  {
    "    b\"{" + m + "}\\0\", \n"
  }

  function RustBody(ms: seq<string>): string
    decreases |ms|
  {
    if |ms| == 0 then "" else RustLine(ms[0]) + RustBody(ms[1..])
  }

  /** The output grows by one entry per piece the cut emits. */
  lemma RustBodyEmit(total: string, out: string, pieces: seq<string>, p: string, ps: seq<string>)
    requires total == out + RustBody(Members(pieces)) && pieces == [p] + ps
    ensures total == (out + RustLine(Drop1(p))) + RustBody(Members(ps))
  {
    MembersCons(p, ps);
    assert ([Drop1(p)] + Members(ps))[1..] == Members(ps);
  }

  /** One step of the cut, as the loops take it. */
  lemma SplitStep(s: string, i: nat, depth: int, buf: string)
    requires i < |s|
    ensures var d := Step(depth, s[i]);
      SplitTop(s[i..], depth, buf) ==
        if IsCloser(s[i]) && d == 1 then
          Split([buf + [s[i]]] + SplitTop(s[i + 1..], d, "").pieces, SplitTop(s[i + 1..], d, "").rest)
        else SplitTop(s[i + 1..], d, buf + [s[i]])
  {
    assert s[i..][0] == s[i] && s[i..][1..] == s[i + 1..];
  }

  /** `formatc` without its file template: one C string per top-level
      piece. */
  method FormatC(pds: string) returns (out: string)
    ensures out == CBody(Members(SplitTop(pds, 0, "").pieces))
  {
    var stack := 0;
    var buf := "";
    out := "";
    var i := 0;
    while i < |pds|
      invariant 0 <= i <= |pds|
      invariant CBody(Members(SplitTop(pds, 0, "").pieces)) == out + CBody(Members(SplitTop(pds[i..], stack, buf).pieces))
    {
      var c := pds[i];
      ghost var before := SplitTop(pds[i..], stack, buf);
      SplitStep(pds, i, stack, buf);
      ghost var d := Step(stack, c);
      buf := buf + [c];
      if IsOpener(c) {
        stack := stack + 1;
      }
      if IsCloser(c) {
        stack := stack - 1;
      }
      assert stack == d;
      if IsCloser(c) && stack == 1 {
        ghost var t := SplitTop(pds[i + 1..], stack, "");
        assert before.pieces == [buf] + t.pieces;
        CBodyEmit(CBody(Members(SplitTop(pds, 0, "").pieces)), out, before.pieces, buf, t.pieces);
        var x := CLine(Drop1(buf));
        out := out + x;
        buf := "";
      } else {
        assert before == SplitTop(pds[i + 1..], stack, buf);
      }
      i := i + 1;
    }
  }

  /** `formatrust` without its file template: the entry count and one byte
      string per top-level piece. */
  method FormatRust(pds: string) returns (lines: nat, out: string)
    ensures lines == |SplitTop(pds, 0, "").pieces|
    ensures out == RustBody(Members(SplitTop(pds, 0, "").pieces))
  {
    ghost var whole := SplitTop(pds, 0, "").pieces;
    ghost var total := RustBody(Members(whole));
    var stack := 0;
    lines := 0;
    var buf := "";
    out := "";
    var i := 0;
    while i < |pds|
      invariant 0 <= i <= |pds|
      invariant |whole| == lines + |SplitTop(pds[i..], stack, buf).pieces|
      invariant total == out + RustBody(Members(SplitTop(pds[i..], stack, buf).pieces))
    {
      var c := pds[i];
      ghost var before := SplitTop(pds[i..], stack, buf);
      SplitStep(pds, i, stack, buf);
      ghost var d := Step(stack, c);
      buf := buf + [c];
      if IsOpener(c) {
        stack := stack + 1;
      }
      if IsCloser(c) {
        stack := stack - 1;
      }
      assert stack == d;
      if IsCloser(c) && stack == 1 {
        ghost var t := SplitTop(pds[i + 1..], stack, "");
        assert before.pieces == [buf] + t.pieces;
        RustBodyEmit(total, out, before.pieces, buf, t.pieces);
        assert |before.pieces| == 1 + |t.pieces|;
        var x := RustLine(Drop1(buf));
        lines := lines + 1;
        out := out + x;
        buf := "";
      } else {
        assert before == SplitTop(pds[i + 1..], stack, buf);
      }
      i := i + 1;
    }
  }

  /** The characters `check_sizes` counts as tokens. */
  predicate IsSizeToken(c: char)
  {
    c == ',' || c == ':' || c == '}' || c == ']'
  }

  function TokenCount(s: string): nat
    decreases |s|
  {
    if |s| == 0 then 0 else TokenCount(s[..|s| - 1]) + (if IsSizeToken(s[|s| - 1]) then 1 else 0)
  }

  lemma {:induction false} TokenCountAppend(a: string, b: string)
    ensures TokenCount(a + b) == TokenCount(a) + TokenCount(b)
    decreases |b|
  {
    if |b| == 0 {
      assert a + b == a;
    } else {
      assert (a + b)[..|a + b| - 1] == a + b[..|b| - 1];
      TokenCountAppend(a, b[..|b| - 1]);
    }
  }

  lemma {:induction false} NoTokens(x: string)
    requires forall i :: 0 <= i < |x| ==> !IsSizeToken(x[i])
    ensures TokenCount(x) == 0
    decreases |x|
  {
    if |x| > 0 {
      NoTokens(x[..|x| - 1]);
    }
  }

  /** The limits of one top-level piece: the counts at which `check_sizes`
      warns, 256 tokens and 1499 bytes. */
  const MAX_TOKENS: nat := 256
  const MAX_PIECE: nat := 1499

  /** The warnings `check_sizes` prints: too many tokens in a top-level
      node, or a node too large, with its number counted from 1. */
  datatype Warning = TooManyTokens(node: nat, count: nat) | TooLarge(node: nat, size: nat)

  /** The size the check sees of a piece: its length when the characters
      are counted, 0 when they are not. */
  function Size(p: string, countChars: bool): nat
  {
    if countChars then |p| else 0
  }

  /** The two warnings the check may print for node number `node`, given
      the token count and the size it counted. */
  function PieceWarnings(node: nat, tokens: nat, size: nat): seq<Warning>
  {
    (if tokens >= MAX_TOKENS then [TooManyTokens(node, tokens)] else [])
    + (if size >= MAX_PIECE then [TooLarge(node, size)] else [])
  }

  /** The warnings for one piece, node number `node`. */
  function NodeWarnings(p: string, node: nat, countChars: bool): seq<Warning>
  {
    PieceWarnings(node, TokenCount(p), Size(p, countChars))
  }

  /** The warnings for the pieces numbered from `node` on. */
  function Warnings(ps: seq<string>, node: nat, countChars: bool): seq<Warning>
    decreases |ps|
  {
    if |ps| == 0 then [] else NodeWarnings(ps[0], node, countChars) + Warnings(ps[1..], node + 1, countChars)
  }

  /** The warnings grow by those of each piece the cut emits. */
  lemma WarningsEmit(total: seq<Warning>, warnings: seq<Warning>, pieces: seq<string>, p: string, ps: seq<string>, node: nat, countChars: bool)
    requires total == warnings + Warnings(pieces, node, countChars) && pieces == [p] + ps
    ensures total == (warnings + NodeWarnings(p, node, countChars)) + Warnings(ps, node + 1, countChars)
  {
    assert pieces[0] == p && pieces[1..] == ps;
  }

  /** A token warning names a node exactly when that node's piece has too
      many tokens, with its count. */
  lemma {:induction false} TokenWarningsSpec(ps: seq<string>, node: nat, countChars: bool, n: nat, k: nat)
    ensures TooManyTokens(n, k) in Warnings(ps, node, countChars) <==>
      (node <= n < node + |ps| && k == TokenCount(ps[n - node]) && k >= MAX_TOKENS)
    decreases |ps|
  {
    if |ps| > 0 {
      TokenWarningsSpec(ps[1..], node + 1, countChars, n, k);
      if node < n < node + |ps| {
        assert ps[1..][n - (node + 1)] == ps[n - node];
      }
    }
  }

  /** A size warning names a node exactly when that node's piece, as
      measured, is at or over the size limit, with its size. */
  lemma {:induction false} SizeWarningsSpec(ps: seq<string>, node: nat, countChars: bool, n: nat, k: nat)
    ensures TooLarge(n, k) in Warnings(ps, node, countChars) <==>
      (node <= n < node + |ps| && k == Size(ps[n - node], countChars) && k >= MAX_PIECE)
    decreases |ps|
  {
    if |ps| > 0 {
      SizeWarningsSpec(ps[1..], node + 1, countChars, n, k);
      if node < n < node + |ps| {
        assert ps[1..][n - (node + 1)] == ps[n - node];
      }
    }
  }

  /** The loop state of the size check after `i` characters: the warnings
      so far and those of the rest of the cut make up all of them, and the
      depth reached leads to the final depth. */
  ghost predicate SizesState(pds: string, i: nat, total: seq<Warning>, warnings: seq<Warning>, depth: int, buf: string, node: nat, countChars: bool)
    requires i <= |pds|
  {
    total == warnings + Warnings(SplitTop(pds[i..], depth, buf).pieces, node, countChars)
    && DepthAfter(pds, 0) == DepthAfter(pds[i..], depth)
  }

  /** One character moves the depth up on an opener, down on a closer,
      and not at all otherwise; no character is both. */
  lemma StepCases(depth: int, c: char)
    ensures IsOpener(c) ==> !IsCloser(c) && Step(depth, c) == depth + 1
    ensures IsCloser(c) ==> Step(depth, c) == depth - 1
    ensures !IsOpener(c) && !IsCloser(c) ==> Step(depth, c) == depth
  {
  }

  lemma TokenCountSnoc(buf: string, c: char)
    ensures TokenCount(buf + [c]) == TokenCount(buf) + (if IsSizeToken(c) then 1 else 0)
  {
    assert (buf + [c])[..|buf|] == buf;
  }

  /** A character that ends no piece joins the piece under way. */
  lemma SizesQuiet(pds: string, i: nat, total: seq<Warning>, warnings: seq<Warning>, depth: int, buf: string, node: nat, countChars: bool)
    requires i < |pds| && SizesState(pds, i, total, warnings, depth, buf, node, countChars)
    requires !(IsCloser(pds[i]) && Step(depth, pds[i]) == 1)
    ensures SizesState(pds, i + 1, total, warnings, Step(depth, pds[i]), buf + [pds[i]], node, countChars)
  {
    SplitStep(pds, i, depth, buf);
    assert pds[i..][0] == pds[i] && pds[i..][1..] == pds[i + 1..];
  }

  /** A character that ends a piece adds that piece's warnings. */
  lemma SizesEmit(pds: string, i: nat, total: seq<Warning>, warnings: seq<Warning>, depth: int, buf: string, node: nat, countChars: bool)
    requires i < |pds| && SizesState(pds, i, total, warnings, depth, buf, node, countChars)
    requires IsCloser(pds[i]) && Step(depth, pds[i]) == 1
    ensures SizesState(pds, i + 1, total, warnings + NodeWarnings(buf + [pds[i]], node, countChars), 1, "", node + 1, countChars)
  {
    SplitStep(pds, i, depth, buf);
    assert pds[i..][0] == pds[i] && pds[i..][1..] == pds[i + 1..];
    var t := SplitTop(pds[i + 1..], 1, "");
    WarningsEmit(total, warnings, [buf + [pds[i]]] + t.pieces, buf + [pds[i]], t.pieces, node, countChars);
  }

  /** `check_sizes` as written: `num_char` is never increased, so only the
      token limit is ever reported; the two `g_ret_value = 1` assign a local
      name, so nothing fails the run; and an unbalanced text ends in the
      NameError of the undefined `brace_stack`. */
  method CheckSizesAsWritten(pds: string) returns (warnings: seq<Warning>, crash: Option<PyError>)
    ensures warnings == Warnings(SplitTop(pds, 0, "").pieces, 1, false)
    ensures crash == if DepthAfter(pds, 0) != 0 then Some(NameError) else None
  {
    ghost var total := Warnings(SplitTop(pds, 0, "").pieces, 1, false);
    var braceLevel := 0;
    var numToken: nat := 0;
    var numChar: nat := 0;
    var numTopNode: nat := 1;
    ghost var buf := "";
    warnings := [];
    var i := 0;
    while i < |pds|
      invariant i <= |pds| && SizesState(pds, i, total, warnings, braceLevel, buf, numTopNode, false)
      invariant numToken == TokenCount(buf) && numChar == Size(buf, false)
    {
      var c := pds[i];
      TokenCountSnoc(buf, c);
      if IsCloser(c) && Step(braceLevel, c) == 1 {
        SizesEmit(pds, i, total, warnings, braceLevel, buf, numTopNode, false);
      } else {
        SizesQuiet(pds, i, total, warnings, braceLevel, buf, numTopNode, false);
      }
      buf := buf + [c];
      if IsSizeToken(c) {
        numToken := numToken + 1;
      }
      if IsOpener(c) {
        braceLevel := braceLevel + 1;
      }
      if IsCloser(c) {
        braceLevel := braceLevel - 1;
        if braceLevel == 1 {
          warnings := warnings + PieceWarnings(numTopNode, numToken, numChar);
          numToken := 0;
          numChar := 0;
          numTopNode := numTopNode + 1;
          buf := "";
        }
      }
      i := i + 1;
    }
    assert pds[|pds|..] == [];
    crash := if braceLevel != 0 then Some(NameError) else None;
  }

  /** What the run should get from `check_sizes`: the warnings and whether
      the run fails, and the internal error reported. */
  datatype SizeReport = SizeReport(warnings: seq<Warning>, failed: bool, internalError: bool)

  /** `check_sizes` corrected: every character of a piece counts towards its
      size, a warning fails the run, and an unbalanced text is reported as
      an internal error rather than raising. */
  method CheckSizes(pds: string) returns (r: SizeReport)
    ensures r.warnings == Warnings(SplitTop(pds, 0, "").pieces, 1, true)
    ensures r.failed == (|r.warnings| > 0)
    ensures r.internalError == (DepthAfter(pds, 0) != 0)
  {
    ghost var total := Warnings(SplitTop(pds, 0, "").pieces, 1, true);
    var braceLevel := 0;
    var numToken: nat := 0;
    var numChar: nat := 0;
    var numTopNode: nat := 1;
    ghost var buf := "";
    var warnings := [];
    var i := 0;
    while i < |pds|
      invariant i <= |pds| && SizesState(pds, i, total, warnings, braceLevel, buf, numTopNode, true)
      invariant numToken == TokenCount(buf) && numChar == |buf|
    {
      var c := pds[i];
      TokenCountSnoc(buf, c);
      if IsCloser(c) && Step(braceLevel, c) == 1 {
        SizesEmit(pds, i, total, warnings, braceLevel, buf, numTopNode, true);
      } else {
        SizesQuiet(pds, i, total, warnings, braceLevel, buf, numTopNode, true);
      }
      buf := buf + [c];
      numChar := numChar + 1;
      if IsSizeToken(c) {
        numToken := numToken + 1;
      }
      if IsOpener(c) {
        braceLevel := braceLevel + 1;
      }
      if IsCloser(c) {
        braceLevel := braceLevel - 1;
        if braceLevel == 1 {
          assert PieceWarnings(numTopNode, numToken, numChar) == NodeWarnings(buf, numTopNode, true);
          warnings := warnings + PieceWarnings(numTopNode, numToken, numChar);
          numToken := 0;
          numChar := 0;
          numTopNode := numTopNode + 1;
          buf := "";
        }
      }
      i := i + 1;
    }
    assert pds[|pds|..] == [];
    r := SizeReport(warnings, |warnings| > 0, braceLevel != 0);
  }

  /** No bracket in `x`: the depth does not move and no piece ends. */
  lemma {:induction false} QuietPlain(x: string, depth: int)
    requires forall i :: 0 <= i < |x| ==> !IsOpener(x[i]) && !IsCloser(x[i])
    ensures Quiet(x, depth) && DepthAfter(x, depth) == depth
    decreases |x|
  {
    if |x| > 0 {
      QuietPlain(x[1..], depth);
    }
  }

  lemma {:induction false} QuietAppend(x: string, y: string, depth: int)
    requires Quiet(x, depth) && Quiet(y, DepthAfter(x, depth))
    ensures Quiet(x + y, depth) && DepthAfter(x + y, depth) == DepthAfter(y, DepthAfter(x, depth))
    decreases |x|
  {
    if |x| == 0 {
      assert x + y == y;
    } else {
      assert (x + y)[0] == x[0] && (x + y)[1..] == x[1..] + y;
      QuietAppend(x[1..], y, Step(depth, x[0]));
    }
  }

  /** An object of one member with a bracketed value is one piece: the
      member behind the opening brace. */
  lemma OneMemberPiece(m: string)
    requires Member(m)
    ensures SplitTop("{" + (m + "}"), 0, "").pieces == ["{" + m]
  {
    var pds := "{" + (m + "}");
    assert pds[0] == '{' && pds[1..] == m + "}";
    SplitUnfold(pds, 0, "");
    assert "" + ['{'] == "{";
    SplitMember(m, "}", "{");
    assert SplitTop("}", 1, "").pieces == [];
  }

  lemma LongMember(ones: string)
    requires forall i :: 0 <= i < |ones| ==> ones[i] == '1'
    ensures Member(("a:[" + ones) + "]")
  {
    var head := "a:[" + ones;
    var m := head + "]";
    assert Quiet("a:[", 1) && DepthAfter("a:[", 1) == 2 by {
      assert "a:["[1..] == ":[" && ":["[1..] == "[" && "["[1..] == "";
    }
    QuietPlain(ones, 2);
    QuietAppend("a:[", ones, 1);
    assert m[..|m| - 1] == head && m[|m| - 1] == ']';
  }

  lemma SmallTokenCounts()
    ensures TokenCount("a:[") == 1 && TokenCount("]") == 1 && TokenCount("{") == 0
  {
    assert "a:["[..2] == "a:" && "a:"[..1] == "a" && "a"[..0] == "";
    assert "]"[..0] == "" && "{"[..0] == "";
  }

  lemma LongMemberTokens(ones: string)
    requires forall i :: 0 <= i < |ones| ==> ones[i] == '1'
    ensures TokenCount("{" + (("a:[" + ones) + "]")) == 2
  {
    NoTokens(ones);
    TokenCountAppend("a:[", ones);
    TokenCountAppend("a:[" + ones, "]");
    TokenCountAppend("{", ("a:[" + ones) + "]");
    SmallTokenCounts();
  }

  /** An object with one member of 1505 characters, within the token
      limit: the check as written prints nothing, the corrected check
      reports the node as too large. */
  lemma SizeLimitMissed(ones: string)
    requires |ones| == 1500 && forall i :: 0 <= i < |ones| ==> ones[i] == '1'
    ensures Warnings(SplitTop("{" + (("a:[" + ones) + "]}"), 0, "").pieces, 1, false) == []
    ensures Warnings(SplitTop("{" + (("a:[" + ones) + "]}"), 0, "").pieces, 1, true) == [TooLarge(1, 1505)]
  {
    var m := ("a:[" + ones) + "]";
    LongMember(ones);
    LongMemberTokens(ones);
    OneMemberPiece(m);
    assert "{" + (("a:[" + ones) + "]}") == "{" + (m + "}");
    var piece := "{" + m;
    assert |piece| == 1505;
    assert [piece][0] == piece && [piece][1..] == [];
  }
}
