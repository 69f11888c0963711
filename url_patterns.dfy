/**
 * The five URL patterns the output watcher tries, and `String.prototype.match`
 * for them. Only the regular-expression features these patterns use are
 * modelled: literal text, `\s+`, an optional character `c?`, and the final
 * capture `(\d+)`. A non-global `match` reports the leftmost match; at each
 * start position the engine tries `\s+` longest first and `c?` with the
 * character first, and the capture is the maximal run of ASCII digits.
 */
module UrlPatterns {
  import opened Wrappers

  /** One element of a URL pattern. */
  datatype Token =
    | Text(t: string)    // literal characters (`\.` and `\/` stand for `.` and `/`)
    | Spaces             // `\s+`
    | Optional(c: char)  // `c?`

  /** The tokens of a pattern; each pattern ends with the capture `(\d+)`. */
  type Pattern = seq<Token>

  /** `localhost:(\d+)` */
  const LocalhostPattern: Pattern := [Text("localhost:")]
  /** `127\.0\.0\.1:(\d+)` */
  const LoopbackPattern: Pattern := [Text("127.0.0.1:")]
  /** `Local:\s+https?:\/\/localhost:(\d+)` */
  const LocalBannerPattern: Pattern := [Text("Local:"), Spaces, Text("http"), Optional('s'), Text("://localhost:")]
  /** `Running at\s+https?:\/\/localhost:(\d+)` */
  const RunningAtPattern: Pattern := [Text("Running at"), Spaces, Text("http"), Optional('s'), Text("://localhost:")]
  /** `http:\/\/localhost:(\d+)` */
  const HttpLocalhostPattern: Pattern := [Text("http://localhost:")]

  /** The patterns in the order they are tried. */
  const Patterns: seq<Pattern> :=
    [LocalhostPattern, LoopbackPattern, LocalBannerPattern, RunningAtPattern, HttpLocalhostPattern]

  /** `\d`: an ASCII decimal digit. */
  predicate IsDigit(c: char) {
    '0' <= c <= '9'
  }

  /** `\s`: the white-space and line-terminator characters of JavaScript regular expressions. */
  predicate IsSpace(c: char) {
    || c == '\t' || c == '\n' || c == '\U{000B}' || c == '\U{000C}' || c == '\r' || c == ' '
    || c == '\U{00A0}' || c == '\U{1680}' || ('\U{2000}' <= c <= '\U{200A}')
    || c == '\U{2028}' || c == '\U{2029}' || c == '\U{202F}' || c == '\U{205F}'
    || c == '\U{3000}' || c == '\U{FEFF}'
  }

  predicate StartsAt(s: string, i: nat, t: string) {
    i + |t| <= |s| && s[i..i + |t|] == t
  }

  /** The maximal run of digits starting at `i`: what the greedy capture `(\d+)` takes there. */
  function DigitRun(s: string, i: nat): (run: string)
    requires i <= |s|
    decreases |s| - i
    ensures i + |run| <= |s| && run == s[i..i + |run|]
    ensures forall k :: 0 <= k < |run| ==> IsDigit(run[k])
    ensures i + |run| == |s| || !IsDigit(s[i + |run|])
  {
    if i < |s| && IsDigit(s[i]) then [s[i]] + DigitRun(s, i + 1) else []
  }

  /** The length of the maximal run of white space starting at `i`. */
  function SpaceRun(s: string, i: nat): (n: nat)
    requires i <= |s|
    decreases |s| - i
    ensures i + n <= |s|
    ensures forall k :: i <= k < i + n ==> IsSpace(s[k])
    ensures i + n == |s| || !IsSpace(s[i + n])
  {
    if i < |s| && IsSpace(s[i]) then 1 + SpaceRun(s, i + 1) else 0
  }

  /**
   * Where the capture begins when the tokens `p` are tried at `pos`: the first
   * path, in the engine's backtracking order, after which a digit follows.
   */
  function MatchEnd(s: string, p: Pattern, pos: nat): (r: Option<nat>)
    requires pos <= |s|
    decreases |p|, 1, 0
    ensures r.Some? ==> pos <= r.value < |s| && IsDigit(s[r.value])
  {
    if p == [] then
      if pos < |s| && IsDigit(s[pos]) then Some(pos) else None
    else
      match p[0]
      case Text(t) =>
        if StartsAt(s, pos, t) then MatchEnd(s, p[1..], pos + |t|) else None
      case Optional(c) =>
        var taken := if pos < |s| && s[pos] == c then MatchEnd(s, p[1..], pos + 1) else None;
        if taken.Some? then taken else MatchEnd(s, p[1..], pos)
      case Spaces =>
        SpacesThen(s, p[1..], pos, SpaceRun(s, pos))
  }

  /** `\s+` followed by `rest`, trying `k`, `k - 1`, ..., 1 white-space characters in turn. */
  function SpacesThen(s: string, rest: Pattern, pos: nat, k: nat): (r: Option<nat>)
    requires pos + k <= |s|
    decreases |rest| + 1, 0, k
    ensures r.Some? ==> pos < r.value < |s| && IsDigit(s[r.value])
  {
    if k == 0 then None
    else
      var r := MatchEnd(s, rest, pos + k);
      if r.Some? then r else SpacesThen(s, rest, pos, k - 1)
  }

  /** The leftmost start position, from `i` on, at which `p` matches. */
  function FirstMatchFrom(s: string, p: Pattern, i: nat): (r: Option<nat>)
    requires i <= |s|
    decreases |s| - i
    ensures r.Some? ==> i <= r.value < |s| && MatchEnd(s, p, r.value).Some?
    ensures r.Some? ==> forall j :: i <= j < r.value ==> MatchEnd(s, p, j).None?
    ensures r.None? ==> forall j :: i <= j <= |s| ==> MatchEnd(s, p, j).None?
  {
    if MatchEnd(s, p, i).Some? then Some(i)
    else if i == |s| then None
    else FirstMatchFrom(s, p, i + 1)
  }

  /**
   * `s.match(p)` followed by `[1]`: the captured port of the leftmost match,
   * or None when `p` matches nowhere in `s`. A captured port is a non-empty
   * run of digits.
   */
  function Exec(s: string, p: Pattern): (port: Option<string>)
    ensures port.Some? <==> exists i :: 0 <= i <= |s| && MatchEnd(s, p, i).Some?
    ensures port.Some? ==> |port.value| > 0 && forall k :: 0 <= k < |port.value| ==> IsDigit(port.value[k])
  {
    match FirstMatchFrom(s, p, 0)
    case None => None
    case Some(i) =>
      assert MatchEnd(s, p, i).Some?;
      Some(DigitRun(s, MatchEnd(s, p, i).value))
  }

  /** The port of a pattern is read after its leftmost matching start position. */
  lemma ExecAt(s: string, p: Pattern, i: nat)
    requires i <= |s| && MatchEnd(s, p, i).Some?
    requires forall j :: 0 <= j < i ==> MatchEnd(s, p, j).None?
    ensures Exec(s, p) == Some(DigitRun(s, MatchEnd(s, p, i).value))
  {
    assert FirstMatchFrom(s, p, 0) == Some(i);
  }

  /** `t` occurs at `i` with a digit right after it. */
  predicate Announces(s: string, t: string, i: nat) {
    StartsAt(s, i, t) && i + |t| < |s| && IsDigit(s[i + |t|])
  }

  /** A one-literal pattern matches at `i` exactly when the literal is announced there. */
  lemma TextMatchEnd(s: string, t: string, i: nat)
    requires i <= |s|
    ensures MatchEnd(s, [Text(t)], i) == if Announces(s, t, i) then Some(i + |t|) else None
  {
    assert [Text(t)][1..] == [];
  }

  /**
   * For a one-literal pattern, the port is the digit run after the leftmost
   * announcement of the literal.
   */
  lemma {:induction false} ExecText(s: string, t: string, i: nat)
    requires Announces(s, t, i)
    requires forall j :: 0 <= j < i ==> !Announces(s, t, j)
    ensures Exec(s, [Text(t)]) == Some(DigitRun(s, i + |t|))
  {
    TextMatchEnd(s, t, i);
    forall j | 0 <= j < i ensures MatchEnd(s, [Text(t)], j).None? {
      TextMatchEnd(s, t, j);
    }
    assert FirstMatchFrom(s, [Text(t)], 0) == Some(i);
  }

  /** A one-literal pattern matches nowhere exactly when the literal is never announced. */
  lemma ExecTextNone(s: string, t: string)
    ensures Exec(s, [Text(t)]).None? <==> forall j :: 0 <= j <= |s| ==> !Announces(s, t, j)
  {
    forall j | 0 <= j <= |s| ensures MatchEnd(s, [Text(t)], j).Some? <==> Announces(s, t, j) {
      TextMatchEnd(s, t, j);
    }
  }

  /** The text right before position `e` is `t`. */
  predicate EndsAt(s: string, e: nat, t: string) {
    |t| <= e <= |s| && s[e - |t|..e] == t
  }

  /**
   * When a pattern ending in the literal `t` matches, the matched text right
   * before the capture is `t`.
   */
  lemma {:induction false} MatchEndEndsWith(s: string, p: Pattern, pos: nat, t: string)
    requires pos <= |s| && p != [] && p[|p| - 1] == Text(t)
    requires MatchEnd(s, p, pos).Some?
    ensures EndsAt(s, MatchEnd(s, p, pos).value, t)
    decreases |p|, 1, 0
  {
    var rest := p[1..];
    if |p| == 1 {
      assert p[0] == Text(t) && rest == [];
    } else {
      assert rest != [] && rest[|rest| - 1] == Text(t);
      match p[0]
      case Text(t0) =>
        MatchEndEndsWith(s, rest, pos + |t0|, t);
      case Optional(c) =>
        if pos < |s| && s[pos] == c && MatchEnd(s, rest, pos + 1).Some? {
          MatchEndEndsWith(s, rest, pos + 1, t);
        } else {
          MatchEndEndsWith(s, rest, pos, t);
        }
      case Spaces =>
        SpacesThenEndsWith(s, rest, pos, SpaceRun(s, pos), t);
    }
  }

  lemma {:induction false} SpacesThenEndsWith(s: string, rest: Pattern, pos: nat, k: nat, t: string)
    requires pos + k <= |s| && rest != [] && rest[|rest| - 1] == Text(t)
    requires SpacesThen(s, rest, pos, k).Some?
    ensures EndsAt(s, SpacesThen(s, rest, pos, k).value, t)
    decreases |rest| + 1, 0, k
  {
    if MatchEnd(s, rest, pos + k).Some? {
      MatchEndEndsWith(s, rest, pos + k, t);
    } else {
      SpacesThenEndsWith(s, rest, pos, k - 1, t);
    }
  }

  /**
   * A pattern whose last literal ends in `localhost:` matches only where the
   * pattern `localhost:(\d+)` matches too.
   */
  lemma EndsWithLocalhost(s: string, p: Pattern, t: string)
    requires EndsWithLocalhostLiteral(p, t)
    requires Exec(s, p).Some?
    ensures Exec(s, LocalhostPattern).Some?
  {
    var i :| 0 <= i <= |s| && MatchEnd(s, p, i).Some?;
    var e := MatchEnd(s, p, i).value;
    MatchEndEndsWith(s, p, i, t);
    EndsAtSuffix(s, e, t, 10);
    var h := e - 10;
    assert StartsAt(s, h, "localhost:") by {
      assert EndsAt(s, e, "localhost:");
      assert h + 10 == e;
    }
    assert Announces(s, "localhost:", h);
    TextMatchEnd(s, "localhost:", h);
    assert MatchEnd(s, LocalhostPattern, h).Some?;
  }

  lemma EndsAtSuffix(s: string, e: nat, t: string, n: nat)
    requires EndsAt(s, e, t) && n <= |t|
    ensures EndsAt(s, e, t[|t| - n..])
  {
    assert s[e - n..e] == s[e - |t|..e][|t| - n..];
  }

  /** The last literal of `p` is `t`, and `t` ends in `localhost:`. */
  predicate EndsWithLocalhostLiteral(p: Pattern, t: string) {
    p != [] && p[|p| - 1] == Text(t) && |t| >= 10 && t[|t| - 10..] == "localhost:"
  }

  lemma LastLiteralEndsWithLocalhost(p: Pattern, t: string)
    requires p in {LocalBannerPattern, RunningAtPattern, HttpLocalhostPattern}
    requires t == if p == HttpLocalhostPattern then "http://localhost:" else "://localhost:"
    ensures EndsWithLocalhostLiteral(p, t)
  {
  }

  /**
   * Whenever the third, fourth or fifth pattern matches, the first pattern
   * `localhost:(\d+)` matches too.
   */
  lemma LaterPatternsImplyFirst(s: string, n: nat)
    requires 2 <= n < |Patterns|
    ensures Exec(s, Patterns[n]).Some? ==> Exec(s, Patterns[0]).Some?
  {
    assert Patterns[0] == LocalhostPattern;
    if Exec(s, Patterns[n]).None? {
    } else if n == 2 {
      assert Patterns[2] == LocalBannerPattern;
      LastLiteralEndsWithLocalhost(LocalBannerPattern, "://localhost:");
      EndsWithLocalhost(s, LocalBannerPattern, "://localhost:");
    } else if n == 3 {
      assert Patterns[3] == RunningAtPattern;
      LastLiteralEndsWithLocalhost(RunningAtPattern, "://localhost:");
      EndsWithLocalhost(s, RunningAtPattern, "://localhost:");
    } else {
      assert Patterns[4] == HttpLocalhostPattern;
      LastLiteralEndsWithLocalhost(HttpLocalhostPattern, "http://localhost:");
      EndsWithLocalhost(s, HttpLocalhostPattern, "http://localhost:");
    }
  }

  /**
   * Taken on its own, the `Local:` pattern can capture a different port than
   * `localhost:(\d+)` in the same chunk; it never gets the chance, since the
   * first pattern is tried before it and matches whenever it does. The chunk
   * is `localhost:1 Local: http://localhost:2`, given in pieces.
   */
  lemma BannerPatternAloneDisagrees(a: string, b: string, c: string, d: string, e: string, f: string)
    requires a == "localhost:1 " && b == "Local:" && c == " " && d == "http"
    requires e == "://localhost:" && f == "2"
    ensures Exec(a + b + c + d + e + f, LocalhostPattern) == Some("1")
    ensures Exec(a + b + c + d + e + f, LocalBannerPattern) == Some("2")
  {
    var s := a + b + c + d + e + f;
    var p2 := LocalBannerPattern;
    FirstPortOfBanner(a, s);
    NoBannerBefore12(a, s, p2);
    BannerMatchesAt12(a, b, c, d, e, f, p2);
    ExecAt(s, p2, 12);
    assert |s| == 37 && s[36] == f[0];
    assert DigitRun(s, 37) == [];
    assert DigitRun(s, 36) == "2";
  }

  lemma FirstPortOfBanner(a: string, s: string)
    requires a == "localhost:1 " && |s| > |a| && s[..12] == a
    ensures Exec(s, LocalhostPattern) == Some("1")
  {
    assert Announces(s, "localhost:", 0) by {
      assert s[..10] == a[..10] == "localhost:";
      assert s[10] == a[10] == '1';
    }
    ExecText(s, "localhost:", 0);
    assert s[11] == a[11] == ' ';
    assert DigitRun(s, 11) == [];
    assert DigitRun(s, 10) == "1";
  }

  lemma NoBannerBefore12(a: string, s: string, p2: Pattern)
    requires a == "localhost:1 " && |s| >= 18 && s[..12] == a
    requires p2 != [] && p2[0] == Text("Local:")
    ensures forall j :: 0 <= j < 12 ==> MatchEnd(s, p2, j).None?
  {
    forall j | 0 <= j < 12 ensures MatchEnd(s, p2, j).None? {
      assert s[j] == a[j] != 'L';
      assert s[j..j + 6][0] == s[j] && "Local:"[0] == 'L';
    }
  }

  lemma BannerMatchesAt12(a: string, b: string, c: string, d: string, e: string, f: string, p2: Pattern)
    requires a == "localhost:1 " && b == "Local:" && c == " " && d == "http"
    requires e == "://localhost:" && f == "2"
    requires p2 == LocalBannerPattern
    ensures MatchEnd(a + b + c + d + e + f, p2, 12) == Some(36)
  {
    var s := a + b + c + d + e + f;
    assert |s| == 37;
    var last := [Text(e)];
    var opt := [Optional('s')] + last;
    var tail := [Text("http")] + opt;
    assert MatchEnd(s, last, 23) == Some(36) by {
      assert s[23..36] == e;
      assert s[36] == f[0] == '2';
      assert last[1..] == [];
    }
    assert MatchEnd(s, opt, 23) == Some(36) by {
      assert s[23] == e[0] == ':';
      assert opt[1..] == last;
    }
    assert MatchEnd(s, tail, 19) == Some(36) by {
      assert s[19..23] == d;
      assert tail[1..] == opt;
    }
    assert SpaceRun(s, 18) == 1 by {
      assert s[18] == c[0] == ' ';
      assert s[19] == d[0] == 'h';
      assert SpaceRun(s, 19) == 0;
    }
    assert SpacesThen(s, tail, 18, 1) == Some(36);
    assert s[12..18] == b;
    assert p2[1..] == [Spaces] + tail && p2[1..][1..] == tail;
  }
}
