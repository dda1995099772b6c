/**
 * `get_pgsql_integrity_error_msg` (app/core/utils.py): the readable sentence
 * in a PostgreSQL constraint-violation message is its last line, with the
 * "DETAIL:" label removed and the leading blanks stripped.
 */
module CoreUtils {
  import opened Wrappers

  /** The characters at which `str.splitlines` breaks a line. */
  predicate IsLineBreak(c: char) {
    var n := c as int;
    n == 0x0A || n == 0x0B || n == 0x0C || n == 0x0D || n == 0x1C || n == 0x1D || n == 0x1E
    || n == 0x85 || n == 0x2028 || n == 0x2029
  }

  /** The characters `str.isspace` accepts, which `str.lstrip()` removes. */
  predicate IsSpace(c: char) {
    var n := c as int;
    (0x09 <= n <= 0x0D) || (0x1C <= n <= 0x20) || n == 0x85 || n == 0xA0 || n == 0x1680
    || (0x2000 <= n <= 0x200A) || n == 0x2028 || n == 0x2029 || n == 0x202F || n == 0x205F || n == 0x3000
  }

  predicate NoLineBreak(s: string) {
    forall i :: 0 <= i < |s| ==> !IsLineBreak(s[i])
  }

  /** Index of the first line break of `s`, or `|s|` when there is none. */
  function FirstBreak(s: string): (k: nat)
    ensures k <= |s| && NoLineBreak(s[..k])
    ensures k < |s| ==> IsLineBreak(s[k])
  {
    if s == [] || IsLineBreak(s[0]) then 0
    else
      var k := 1 + FirstBreak(s[1..]);
      assert s[..k] == [s[0]] + s[1..][..k - 1];
      k
  }

  /** How many characters the line break at `k` takes: "\r\n" counts as one break. */
  function BreakWidth(s: string, k: nat): (w: nat)
    requires k < |s|
    ensures 1 <= w <= |s| - k
  {
    if s[k] == '\r' && k + 1 < |s| && s[k + 1] == '\n' then 2 else 1
  }

  /** `str.splitlines()`: the lines without their terminators; a final terminator opens no empty line. */
  function SplitLines(s: string): (lines: seq<string>)
    ensures |lines| == 0 <==> s == []
    ensures forall i :: 0 <= i < |lines| ==> NoLineBreak(lines[i])
    decreases |s|
  {
    if s == [] then []
    else
      var k := FirstBreak(s);
      if k == |s| then [s]
      else [s[..k]] + SplitLines(s[k + BreakWidth(s, k)..])
  }

  /** A text without line breaks is a single line. */
  lemma SplitSingleLine(s: string)
    requires s != [] && NoLineBreak(s)
    ensures SplitLines(s) == [s]
  {
  }

  /** A line ended by "\n" is the first line, and the rest is split on its own. */
  lemma {:induction false} SplitFirstLine(a: string, b: string)
    requires NoLineBreak(a)
    ensures SplitLines(a + "\n" + b) == [a] + SplitLines(b)
  {
    var s := a + "\n" + b;
    var k := FirstBreak(s);
    assert s[|a|] == '\n';
    assert s[..|a|] == a;
    assert k == |a|;
    assert BreakWidth(s, k) == 1;
    assert s[..k] == a;
    assert s[k + 1..] == b;
  }

  /** `s.replace(pat, "")`: removes the occurrences of `pat` found scanning left to right, without rescanning. */
  function RemoveAll(s: string, pat: string): (r: string)
    requires |pat| > 0
    ensures |r| <= |s|
    ensures NoLineBreak(s) ==> NoLineBreak(r)
    decreases |s|
  {
    if |s| < |pat| then s
    else if s[..|pat|] == pat then RemoveAll(s[|pat|..], pat)
    else [s[0]] + RemoveAll(s[1..], pat)
  }

  predicate OccursAt(s: string, pat: string, i: nat) {
    i + |pat| <= |s| && s[i..i + |pat|] == pat
  }

  /** A text in which `pat` does not occur comes back unchanged. */
  lemma {:induction false} RemoveAllAbsent(s: string, pat: string)
    requires |pat| > 0
    requires forall i: nat :: !OccursAt(s, pat, i)
    ensures RemoveAll(s, pat) == s
    decreases |s|
  {
    if |s| >= |pat| {
      assert !OccursAt(s, pat, 0);
      assert s[0..|pat|] == s[..|pat|];
      forall i: nat ensures !OccursAt(s[1..], pat, i) {
        assert !OccursAt(s, pat, i + 1);
        if i + |pat| <= |s[1..]| {
          assert s[1..][i..i + |pat|] == s[i + 1..i + 1 + |pat|];
        }
      }
      RemoveAllAbsent(s[1..], pat);
    }
  }

  /**
   * The leftmost occurrence is the one removed: when `pat` does not start
   * anywhere inside `a` (overlapping the `pat` that follows it included),
   * `a` is kept, that `pat` disappears and the scan goes on after it.
   */
  lemma {:induction false} RemoveAllLeftmost(a: string, pat: string, b: string)
    requires |pat| > 0
    requires forall i :: 0 <= i < |a| ==> !OccursAt(a + pat, pat, i)
    ensures RemoveAll(a + pat + b, pat) == a + RemoveAll(b, pat)
    decreases |a|
  {
    var rest := RemoveAll(b, pat);
    if a == [] {
      LeftmostAtFront(pat, b);
      assert a + pat + b == [] + pat + b && a + rest == [] + rest;
    } else {
      LeftmostSkip(a, pat, b);
      NoneInsideTail(a, pat);
      RemoveAllLeftmost(a[1..], pat, b);
      assert [a[0]] + (a[1..] + rest) == a + rest;
    }
  }

  lemma LeftmostAtFront(pat: string, b: string)
    requires |pat| > 0
    ensures RemoveAll([] + pat + b, pat) == [] + RemoveAll(b, pat)
  {
    var s := [] + pat + b;
    assert s[..|pat|] == pat && s[|pat|..] == b;
    RemoveAllDrop(s, pat);
  }

  lemma LeftmostSkip(a: string, pat: string, b: string)
    requires |pat| > 0 && |a| > 0 && !OccursAt(a + pat, pat, 0)
    ensures RemoveAll(a + pat + b, pat) == [a[0]] + RemoveAll(a[1..] + pat + b, pat)
  {
    var s := a + pat + b;
    assert s[..|pat|] == (a + pat)[0..|pat|];
    RemoveAllSkip(s, pat);
    assert s[1..] == a[1..] + pat + b;
  }

  lemma NoneInsideTail(a: string, pat: string)
    requires |pat| > 0 && |a| > 0
    requires forall i :: 0 <= i < |a| ==> !OccursAt(a + pat, pat, i)
    ensures forall i :: 0 <= i < |a[1..]| ==> !OccursAt(a[1..] + pat, pat, i)
  {
    assert a[1..] + pat == (a + pat)[1..];
    forall i | 0 <= i < |a[1..]| ensures !OccursAt(a[1..] + pat, pat, i) {
      assert !OccursAt(a + pat, pat, i + 1);
    }
  }

  lemma RemoveAllSkip(s: string, pat: string)
    requires |pat| > 0 && |s| >= |pat| && s[..|pat|] != pat
    ensures RemoveAll(s, pat) == [s[0]] + RemoveAll(s[1..], pat)
  {
  }

  lemma RemoveAllDrop(s: string, pat: string)
    requires |pat| > 0 && |s| >= |pat| && s[..|pat|] == pat
    ensures RemoveAll(s, pat) == RemoveAll(s[|pat|..], pat)
  {
  }

  /**
   * Occurrences are not rescanned: when `pat` is wrapped around its own first
   * `k` characters, and its first character does not come back among the
   * next `k`, removing `pat` leaves exactly one `pat` behind.
   */
  lemma RemoveAllDoesNotRescan(pat: string, k: nat)
    requires 0 < k < |pat|
    requires forall i :: 0 < i <= k ==> pat[i] != pat[0]
    ensures RemoveAll(pat[..k] + pat + pat[k..], pat) == pat
  {
    var front := pat[..k];
    forall i | 0 <= i < |front| ensures !OccursAt(front + pat, pat, i) {
      var w := front + pat;
      if i == 0 {
        assert w[k] == pat[0] != pat[k];
        assert w[0..|pat|][k] != pat[k];
      } else {
        assert w[i] == pat[i] != pat[0];
        assert w[i..i + |pat|][0] != pat[0];
      }
    }
    RemoveAllLeftmost(front, pat, pat[k..]);
    assert front + pat[k..] == pat;
  }

  /** The instance of a constraint message: removing "DETAIL:" from "DETDETAIL:AIL:" leaves "DETAIL:". */
  lemma DetailNotRescanned(s: string, pat: string)
    requires s == "DETDETAIL:AIL:" && pat == "DETAIL:"
    ensures RemoveAll(s, pat) == pat
  {
    assert pat[1] != pat[0] && pat[2] != pat[0] && pat[3] != pat[0];
    assert s == pat[..3] + pat + pat[3..];
    RemoveAllDoesNotRescan(pat, 3);
  }

  /** `str.lstrip()`: drops the leading whitespace and keeps everything from the first other character on. */
  function LStrip(s: string): (r: string)
    ensures |r| <= |s| && r == s[|s| - |r|..]
    ensures r == [] || !IsSpace(r[0])
    ensures forall i :: 0 <= i < |s| - |r| ==> IsSpace(s[i])
  {
    if s != [] && IsSpace(s[0]) then LStrip(s[1..]) else s
  }

  /** Trailing whitespace survives: stripping only looks at the front. */
  lemma LStripKeepsTail(s: string, tail: string)
    requires s != [] && !IsSpace(s[0])
    ensures LStrip(s + tail) == s + tail
  {
  }

  /**
   * `get_pgsql_integrity_error_msg`: None when the message has no lines (the
   * `[-1]` index raises); otherwise the last line without "DETAIL:" and
   * without leading whitespace.
   */
  function GetPgsqlIntegrityErrorMsg(raw: string): (r: Option<string>)
    ensures r.None? <==> raw == []
    ensures r.Some? ==> var lines := SplitLines(raw);
      r.value == LStrip(RemoveAll(lines[|lines| - 1], "DETAIL:"))
    ensures r.Some? ==> NoLineBreak(r.value) && (r.value == [] || !IsSpace(r.value[0]))
  {
    var lines := SplitLines(raw);
    if lines == [] then None
    else
      var removed := RemoveAll(lines[|lines| - 1], "DETAIL:");
      var stripped := LStrip(removed);
      assert NoLineBreak(removed);
      assert forall i :: 0 <= i < |stripped| ==> stripped[i] == removed[|removed| - |stripped| + i];
      Some(stripped)
  }

  /**
   * Whatever comes before it, a non-empty text without line breaks that
   * follows a line break is the last line.
   */
  lemma {:induction false} LastLine(head: string, line: string)
    requires |head| > 0 && IsLineBreak(head[|head| - 1])
    requires line != [] && NoLineBreak(line)
    ensures var lines := SplitLines(head + line); |lines| > 0 && lines[|lines| - 1] == line
    decreases |head|
  {
    var n := FirstLineEnd(head, line);
    var rest := SplitLines(head[n..] + line);
    if n == |head| {
      assert head[n..] + line == line;
      SplitSingleLine(line);
    } else {
      LastLine(head[n..], line);
    }
    assert SplitLines(head + line)[|SplitLines(head + line)| - 1] == rest[|rest| - 1];
  }

  /** The first line of `head + line` ends, with its break, inside `head`. */
  lemma FirstLineEnd(head: string, line: string) returns (n: nat)
    requires |head| > 0 && IsLineBreak(head[|head| - 1])
    requires line != [] && NoLineBreak(line)
    ensures 0 < n <= |head|
    ensures n < |head| ==> IsLineBreak(head[n..][|head[n..]| - 1])
    ensures exists first :: SplitLines(head + line) == [first] + SplitLines(head[n..] + line)
  {
    var s := head + line;
    var k := FirstBreak(s);
    assert s[|head| - 1] == head[|head| - 1];
    assert k < |head|;
    var w := BreakWidth(s, k);
    assert k + w <= |head|;
    n := k + w;
    assert s[n..] == head[n..] + line;
    assert SplitLines(s) == [s[..k]] + SplitLines(s[n..]);
  }

  /**
   * The usual shape of a constraint message: any lines, then a line
   * "DETAIL:" followed by the sentence, which comes back without its leading
   * blanks.
   */
  lemma {:induction false} DetailLineSentence(head: string, sentence: string)
    requires |head| > 0 && IsLineBreak(head[|head| - 1])
    requires NoLineBreak(sentence)
    requires forall i: nat :: !OccursAt(sentence, "DETAIL:", i)
    ensures GetPgsqlIntegrityErrorMsg(head + ("DETAIL:" + sentence)) == Some(LStrip(sentence))
  {
    var detail := "DETAIL:" + sentence;
    assert NoLineBreak(detail) by {
      forall i | 0 <= i < |detail| ensures !IsLineBreak(detail[i]) {
        if i >= 7 {
          assert detail[i] == sentence[i - 7];
        }
      }
    }
    LastLine(head, detail);
    assert detail[..7] == "DETAIL:";
    assert detail[7..] == sentence;
    RemoveAllAbsent(sentence, "DETAIL:");
  }
}
