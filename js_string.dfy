/**
 * The few JavaScript string operations the route handlers rely on:
 * `trim`, `startsWith`, `substring(0, n)`/`slice(0, n)` and `split('\n')`.
 * Strings are sequences of characters; JavaScript counts UTF-16 code units,
 * the model counts characters.
 */
module JsString {

  /** The characters `String.prototype.trim` removes: ECMAScript WhiteSpace and LineTerminator. */
  predicate IsTrimmable(c: char) {
    ('\t' <= c <= '\r') || c == ' ' || c == '\U{A0}' || c == '\U{1680}'
    || ('\U{2000}' <= c <= '\U{200A}') || ('\U{2028}' <= c <= '\U{2029}')
    || c == '\U{202F}' || c == '\U{205F}' || c == '\U{3000}' || c == '\U{FEFF}'
  }

  predicate AllTrimmable(s: string) {
    forall k :: 0 <= k < |s| ==> IsTrimmable(s[k])
  }

  /** Drops leading whitespace: the result is a suffix of `s`, and only whitespace was dropped. */
  function TrimStart(s: string): (r: string)
    ensures |r| <= |s| && r == s[|s| - |r|..]
    ensures AllTrimmable(s[..|s| - |r|])
    ensures r != [] ==> !IsTrimmable(r[0])
  {
    if s != [] && IsTrimmable(s[0]) then
      var r := TrimStart(s[1..]);
      TrimStartStep(s, r);
      r
    else s
  }

  /** Drops trailing whitespace: the result is a prefix of `s`, and only whitespace was dropped. */
  function TrimEnd(s: string): (r: string)
    ensures |r| <= |s| && r == s[..|r|]
    ensures AllTrimmable(s[|r|..])
    ensures r != [] ==> !IsTrimmable(r[|r| - 1])
  {
    if s != [] && IsTrimmable(s[|s| - 1]) then
      var r := TrimEnd(s[..|s| - 1]);
      TrimEndStep(s, r);
      r
    else s
  }

  /** One leading whitespace character more in front of a trimmed tail. */
  lemma TrimStartStep(s: string, r: string)
    requires s != [] && IsTrimmable(s[0])
    requires |r| <= |s| - 1 && r == s[1..][|s| - 1 - |r|..]
    requires AllTrimmable(s[1..][..|s| - 1 - |r|])
    ensures r == s[|s| - |r|..]
    ensures AllTrimmable(s[..|s| - |r|])
  {
    var n := |s| - |r|;
    forall k | 0 <= k < n
      ensures IsTrimmable(s[..n][k])
    {
      if k > 0 {
        assert s[..n][k] == s[1..][..n - 1][k - 1];
      }
    }
  }

  /** One trailing whitespace character more behind a trimmed head. */
  lemma TrimEndStep(s: string, r: string)
    requires s != [] && IsTrimmable(s[|s| - 1])
    requires |r| <= |s| - 1 && r == s[..|s| - 1][..|r|]
    requires AllTrimmable(s[..|s| - 1][|r|..])
    ensures r == s[..|r|]
    ensures AllTrimmable(s[|r|..])
  {
    var n := |r|;
    forall k | 0 <= k < |s| - n
      ensures IsTrimmable(s[n..][k])
    {
      if k < |s| - 1 - n {
        assert s[n..][k] == s[..|s| - 1][n..][k];
      }
    }
  }

  /** `s.trim()`: a contiguous piece of `s` that neither starts nor ends with whitespace. */
  function Trim(s: string): (r: string)
    ensures |r| <= |s|
    ensures r != [] ==> !IsTrimmable(r[0]) && !IsTrimmable(r[|r| - 1])
  {
    TrimEnd(TrimStart(s))
  }

  /** A line is blank after trimming exactly when every character of it is whitespace. */
  lemma TrimEmptyIff(s: string)
    ensures Trim(s) == "" <==> AllTrimmable(s)
  {
    var t := TrimStart(s);
    if Trim(s) == "" {
      assert AllTrimmable(t);
      assert s == s[..|s| - |t|] + t;
      AllTrimmableConcat(s[..|s| - |t|], t);
    }
  }

  /** Whitespace around a line (a carriage return before its newline, say) does not change what `trim` returns. */
  lemma TrimPadded(pre: string, s: string, post: string)
    requires AllTrimmable(pre) && AllTrimmable(post)
    ensures Trim(pre + s + post) == Trim(s)
  {
    assert pre + s + post == pre + (s + post);
    TrimStartPadded(pre, s + post);
    if TrimStart(s) == [] {
      TrimPaddedBlank(s, post);
    } else {
      TrimPaddedText(s, post);
    }
  }

  lemma TrimPaddedBlank(s: string, post: string)
    requires AllTrimmable(post) && TrimStart(s) == []
    ensures TrimEnd(TrimStart(s + post)) == Trim(s)
  {
    TrimEmptyIff(s);
    AllTrimmableConcat(s, post);
    TrimEmptyIff(s + post);
  }

  lemma TrimPaddedText(s: string, post: string)
    requires AllTrimmable(post) && TrimStart(s) != []
    ensures TrimEnd(TrimStart(s + post)) == Trim(s)
  {
    var t := TrimStart(s);
    var k := |s| - |t|;
    calc {
      TrimStart(s + post);
    == { SplitAt(s, k, post); }
      TrimStart(s[..k] + (t + post));
    == { TrimStartPadded(s[..k], t + post); }
      TrimStart(t + post);
    == { TrimStartKeeps(t, post); }
      t + post;
    }
    TrimEndSuffix(t, post);
  }

  lemma TrimStartKeeps(t: string, post: string)
    requires t != [] && !IsTrimmable(t[0])
    ensures TrimStart(t + post) == t + post
  {
    assert (t + post)[0] == t[0];
  }

  lemma SplitAt(s: string, k: nat, post: string)
    requires k <= |s|
    ensures s + post == s[..k] + (s[k..] + post)
  {
    assert s == s[..k] + s[k..];
  }

  lemma AllTrimmableConcat(a: string, b: string)
    requires AllTrimmable(a) && AllTrimmable(b)
    ensures AllTrimmable(a + b)
  {
    forall k | 0 <= k < |a + b| ensures IsTrimmable((a + b)[k]) {
      if k < |a| { assert (a + b)[k] == a[k]; } else { assert (a + b)[k] == b[k - |a|]; }
    }
  }

  lemma {:induction false} TrimStartPadded(pre: string, s: string)
    requires AllTrimmable(pre)
    ensures TrimStart(pre + s) == TrimStart(s)
  {
    if pre != [] {
      assert (pre + s)[0] == pre[0];
      assert (pre + s)[1..] == pre[1..] + s;
      TrimStartPadded(pre[1..], s);
    } else {
      assert pre + s == s;
    }
  }

  lemma {:induction false} TrimEndSuffix(s: string, post: string)
    requires AllTrimmable(post)
    ensures TrimEnd(s + post) == TrimEnd(s)
  {
    if post != [] {
      var n := |post| - 1;
      assert (s + post)[|s + post| - 1] == post[n];
      assert (s + post)[..|s + post| - 1] == s + post[..n];
      TrimEndSuffix(s, post[..n]);
    } else {
      assert s + post == s;
    }
  }

  /** `s.startsWith(prefix)`, compared character by character: true exactly when `prefix` is the head of `s`. */
  function StartsWith(s: string, prefix: string): (b: bool)
    ensures b <==> |prefix| <= |s| && s[..|prefix|] == prefix
  {
    if prefix == [] then true
    else if s == [] || s[0] != prefix[0] then false
    else
      var b := StartsWith(s[1..], prefix[1..]);
      assert |prefix| <= |s| ==> s[..|prefix|] == [s[0]] + s[1..][..|prefix| - 1];
      assert prefix == [prefix[0]] + prefix[1..];
      b
  }

  /** `s.substring(0, n)` and `s.slice(0, n)` for `n >= 0`: the first `n` characters, or all of `s` when shorter. */
  function Prefix(s: string, n: nat): (r: string)
    ensures |r| <= n && r <= s
    ensures |r| == n || r == s
  {
    if |s| <= n then s else s[..n]
  }

  /**
   * `s.split('\n')`: the pieces between newlines, in order. There is always at least one
   * piece (the empty string splits into `[""]`) and no piece holds a newline.
   */
  function Split(s: string): (r: seq<string>)
    ensures |r| >= 1
  {
    if s == [] then [""]
    else
      var t := Split(s[1..]);
      if s[0] == '\n' then [""] + t else [[s[0]] + t[0]] + t[1..]
  }

  /** No piece of a split holds a newline; in particular the carried piece does not. */
  lemma {:induction false} SplitPiecesNoNewline(s: string)
    ensures forall i :: 0 <= i < |Split(s)| ==> '\n' !in Split(s)[i]
  {
    if s != [] {
      SplitPiecesNoNewline(s[1..]);
      var t := Split(s[1..]);
      if s[0] != '\n' {
        assert forall k :: 0 <= k < |t[0]| ==> ([s[0]] + t[0])[k + 1] == t[0][k];
      }
    }
  }

  /** `pieces.join('\n')`. */
  function Join(pieces: seq<string>): string {
    if |pieces| == 0 then ""
    else if |pieces| == 1 then pieces[0]
    else pieces[0] + "\n" + Join(pieces[1..])
  }

  /** Joining the pieces of a split gives back the string. */
  lemma {:induction false} JoinSplit(s: string)
    ensures Join(Split(s)) == s
  {
    if s != [] {
      var t := Split(s[1..]);
      JoinSplit(s[1..]);
      if s[0] == '\n' {
        assert s == "\n" + s[1..];
      } else if |t| == 1 {
        assert s == [s[0]] + s[1..];
      } else {
        assert Join(t) == t[0] + "\n" + Join(t[1..]);
        assert s == [s[0]] + s[1..];
      }
    }
  }

  /** Splitting a join of newline-free pieces gives back the pieces. */
  lemma {:induction false} SplitJoin(pieces: seq<string>)
    requires |pieces| >= 1
    requires forall i :: 0 <= i < |pieces| ==> '\n' !in pieces[i]
    ensures Split(Join(pieces)) == pieces
  {
    if |pieces| == 1 {
      NoNewlineSplit(pieces[0]);
    } else {
      SplitJoin(pieces[1..]);
      SplitAroundNewline(pieces[0], Join(pieces[1..]));
      NoNewlineSplit(pieces[0]);
      assert pieces == [pieces[0]] + pieces[1..];
    }
  }

  lemma {:induction false} SplitAroundNewline(a: string, b: string)
    requires '\n' !in a
    ensures Split(a + "\n" + b) == [a] + Split(b)
  {
    if a == [] {
      assert a + "\n" + b == "\n" + b;
      assert ("\n" + b)[1..] == b;
    } else {
      assert '\n' !in a[1..] by { assert forall k :: 0 <= k < |a| - 1 ==> a[1..][k] == a[k + 1]; }
      SplitAroundNewline(a[1..], b);
      assert (a + "\n" + b)[0] == a[0];
      assert (a + "\n" + b)[1..] == a[1..] + "\n" + b;
      assert a == [a[0]] + a[1..];
    }
  }

  lemma {:induction false} NoNewlineSplit(s: string)
    requires '\n' !in s
    ensures Split(s) == [s]
  {
    if s != [] {
      assert '\n' !in s[1..] by { assert forall k :: 0 <= k < |s| - 1 ==> s[1..][k] == s[k + 1]; }
      NoNewlineSplit(s[1..]);
      assert s == [s[0]] + s[1..];
    }
  }

  /** The lines a buffer holds before its last newline: the pieces of the split but the last. */
  function Lines(s: string): (r: seq<string>)
    ensures forall i :: 0 <= i < |r| ==> '\n' !in r[i]
  {
    var pieces := Split(s);
    SplitPiecesNoNewline(s);
    pieces[..|pieces| - 1]
  }

  /** What the decoder keeps back: the piece after the last newline (`lines.pop()`). */
  function Carry(s: string): (r: string)
    ensures '\n' !in r
  {
    var pieces := Split(s);
    SplitPiecesNoNewline(s);
    pieces[|pieces| - 1]
  }

  /** A newline-free string holds no complete line. */
  lemma NoNewlineLines(s: string)
    requires '\n' !in s
    ensures Lines(s) == [] && Carry(s) == s
  {
    NoNewlineSplit(s);
  }

  /**
   * The step of the decoder: the complete lines, each followed by a newline, and then the
   * carried piece, spell the buffer out again.
   */
  lemma LinesThenCarry(s: string)
    ensures Lines(s) == [] ==> Carry(s) == s
    ensures Lines(s) != [] ==> Join(Lines(s)) + "\n" + Carry(s) == s
  {
    JoinSplit(s);
    JoinSnoc(Lines(s), Carry(s));
    assert Split(s) == Lines(s) + [Carry(s)];
  }

  lemma {:induction false} JoinSnoc(init: seq<string>, last: string)
    ensures init == [] ==> Join(init + [last]) == last
    ensures init != [] ==> Join(init + [last]) == Join(init) + "\n" + last
  {
    if |init| >= 2 {
      JoinSnoc(init[1..], last);
      assert (init + [last])[1..] == init[1..] + [last];
    } else if |init| == 1 {
      assert init + [last] == [init[0], last];
    } else {
      assert init + [last] == [last];
    }
  }

  /** Joining two non-empty lists of pieces: the joins meet at one newline. */
  lemma {:induction false} JoinAppend(p: seq<string>, q: seq<string>)
    requires p != [] && q != []
    ensures Join(p + q) == Join(p) + "\n" + Join(q)
  {
    assert (p + q)[0] == p[0] && (p + q)[1..] == p[1..] + q;
    if |p| > 1 {
      JoinAppend(p[1..], q);
    } else {
      assert p[1..] + q == q;
    }
  }

  /**
   * Appending text to a buffer: its complete lines stay, and the rest is split from the
   * carried piece on. Both sides join to `x + y` and hold newline-free pieces, and a
   * split is the only such list.
   */
  lemma {:induction false} SplitAppend(x: string, y: string)
    ensures Split(x + y) == Lines(x) + Split(Carry(x) + y)
  {
    var p, q := Lines(x), Split(Carry(x) + y);
    LinesThenCarry(x);
    if p == [] {
      assert p + q == q;
    } else {
      JoinSplit(Carry(x) + y);
      JoinAppend(p, q);
      assert Join(p + q) == x + y;
      SplitPiecesNoNewline(Carry(x) + y);
      LinesNoNewlineAppend(x, q);
      SplitJoin(p + q);
    }
  }

  lemma LinesNoNewlineAppend(x: string, q: seq<string>)
    requires forall i :: 0 <= i < |q| ==> '\n' !in q[i]
    ensures forall i :: 0 <= i < |Lines(x) + q| ==> '\n' !in (Lines(x) + q)[i]
  {
    var p := Lines(x);
    SplitPiecesNoNewline(x);
    forall i | 0 <= i < |p + q|
      ensures '\n' !in (p + q)[i]
    {
      if i < |p| {
        assert (p + q)[i] == Split(x)[i];
      } else {
        assert (p + q)[i] == q[i - |p|];
      }
    }
  }

  /**
   * Feeding a buffer in two parts yields the same complete lines and carried piece as
   * feeding it whole: where the text is cut does not matter.
   */
  lemma LinesAppend(x: string, y: string)
    ensures Lines(x + y) == Lines(x) + Lines(Carry(x) + y)
    ensures Carry(x + y) == Carry(Carry(x) + y)
  {
    SplitAppend(x, y);
    DropLastAppend(Lines(x), Split(Carry(x) + y));
  }

  lemma DropLastAppend<T>(p: seq<T>, q: seq<T>)
    requires q != []
    ensures (p + q)[..|p + q| - 1] == p + q[..|q| - 1]
    ensures (p + q)[|p + q| - 1] == q[|q| - 1]
  {
  }
}
