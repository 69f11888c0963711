/**
 * The output watcher: every chunk of text the dev server writes, on stdout
 * or stderr, goes through one handler that, until the browser has been
 * launched, tries the URL patterns in order and launches
 * `http://localhost:<port>` for the first one that matches.
 *
 * Launching the browser (`openIncognito`) is an outside effect; it is
 * recorded as the URL appended to a ghost log of launches.
 */
module OutputWatcher {
  import opened Wrappers
  import opened UrlPatterns

  /** Which pattern matched a chunk (its index in `Patterns`) and the port it captured. */
  datatype Detection = Detection(pattern: nat, port: string)

  /** The first of the patterns `ps`, from index `k` on, that matches `output`, with its port. */
  function DetectFrom(output: string, ps: seq<Pattern>, k: nat): (d: Option<Detection>)
    requires k <= |ps|
    decreases |ps| - k
    ensures d.Some? ==> k <= d.value.pattern < |ps| && Exec(output, ps[d.value.pattern]) == Some(d.value.port)
    ensures d.Some? ==> forall j :: k <= j < d.value.pattern ==> Exec(output, ps[j]).None?
    ensures d.None? ==> forall j :: k <= j < |ps| ==> Exec(output, ps[j]).None?
  {
    if k == |ps| then None
    else
      match Exec(output, ps[k])
      case Some(port) => Some(Detection(k, port))
      case None => DetectFrom(output, ps, k + 1)
  }

  /**
   * What one chunk yields. Only the first two patterns can ever be the one
   * used, and the port is always a non-empty run of digits.
   */
  function Detect(output: string): (d: Option<Detection>)
    ensures d.Some? ==> d.value.pattern < 2
    ensures d.Some? ==> |d.value.port| > 0 && forall k :: 0 <= k < |d.value.port| ==> IsDigit(d.value.port[k])
  {
    var d := DetectFrom(output, Patterns, 0);
    if d.Some? && d.value.pattern >= 2 then
      LaterPatternsImplyFirst(output, d.value.pattern);
      d
    else d
  }

  /**
   * When `localhost:` is followed by a digit somewhere in a chunk, the port is
   * the digit run after its leftmost such occurrence, whatever else (a
   * `127.0.0.1:` address, say) comes earlier in the chunk.
   */
  lemma LocalhostWins(output: string, i: nat)
    requires Announces(output, "localhost:", i)
    requires forall j :: 0 <= j < i ==> !Announces(output, "localhost:", j)
    ensures Detect(output) == Some(Detection(0, DigitRun(output, i + 10)))
  {
    ExecText(output, "localhost:", i);
    assert Patterns[0] == LocalhostPattern;
  }

  /**
   * Without any `localhost:<digit>` in a chunk, the port is the digit run
   * after the leftmost `127.0.0.1:` followed by a digit.
   */
  lemma LoopbackFallback(output: string, i: nat)
    requires forall j :: 0 <= j <= |output| ==> !Announces(output, "localhost:", j)
    requires Announces(output, "127.0.0.1:", i)
    requires forall j :: 0 <= j < i ==> !Announces(output, "127.0.0.1:", j)
    ensures Detect(output) == Some(Detection(1, DigitRun(output, i + 10)))
  {
    ExecTextNone(output, "localhost:");
    ExecText(output, "127.0.0.1:", i);
    assert Patterns[0] == LocalhostPattern && Patterns[1] == LoopbackPattern;
    var d := DetectFrom(output, Patterns, 0);
    assert d.Some? && d.value.pattern == 1;
  }

  /**
   * A chunk yields nothing exactly when neither `localhost:` nor `127.0.0.1:`
   * is followed by a digit anywhere in it.
   */
  lemma NothingDetected(output: string)
    ensures Detect(output).None? <==>
      forall j :: 0 <= j <= |output| ==>
        !Announces(output, "localhost:", j) && !Announces(output, "127.0.0.1:", j)
  {
    ExecTextNone(output, "localhost:");
    ExecTextNone(output, "127.0.0.1:");
    assert Patterns[0] == LocalhostPattern && Patterns[1] == LoopbackPattern;
    var d := DetectFrom(output, Patterns, 0);
    assert Detect(output) == d;
  }

  /** The URL handed to the browser for a detected port. */
  function LocalUrl(port: string): string {
    "http://localhost:" + port
  }

  /** The watcher's state: the `browserLaunched` flag and the URLs launched so far. */
  datatype WatchState = WatchState(launched: bool, log: seq<string>)

  const Idle: WatchState := WatchState(false, [])

  /** The handler for one chunk from either stream. */
  function Step(st: WatchState, output: string): (r: WatchState)
    ensures st.launched ==> r == st
    ensures r.launched <==> st.launched || Detect(output).Some?
    ensures |r.log| == |st.log| + 1 <==> !st.launched && Detect(output).Some?
    ensures |st.log| <= |r.log| <= |st.log| + 1 && r.log[..|st.log|] == st.log
  {
    if st.launched then st
    else
      match Detect(output)
      case None => st
      case Some(d) => WatchState(true, st.log + [LocalUrl(d.port)])
  }

  /** The state after handling `chunks`, in arrival order, from `st`. */
  function Replay(st: WatchState, chunks: seq<string>): (r: WatchState)
    ensures st.launched ==> r.launched
    ensures |st.log| <= |r.log| <= |st.log| + (if st.launched then 0 else 1)
    ensures r.log[..|st.log|] == st.log
    ensures |r.log| == |st.log| + 1 ==> r.launched
    decreases |chunks|
  {
    if chunks == [] then st else Replay(Step(st, chunks[0]), chunks[1..])
  }

  lemma {:induction false} ReplaySnoc(st: WatchState, chunks: seq<string>, c: string)
    ensures Replay(st, chunks + [c]) == Step(Replay(st, chunks), c)
    decreases |chunks|
  {
    if chunks == [] {
      assert [c][1..] == [];
    } else {
      assert (chunks + [c])[1..] == chunks[1..] + [c];
      ReplaySnoc(Step(st, chunks[0]), chunks[1..], c);
    }
  }

  /** Once the flag is set, no chunk from either stream changes anything. */
  lemma {:induction false} LaunchedIsFinal(st: WatchState, chunks: seq<string>)
    requires st.launched
    ensures Replay(st, chunks) == st
    decreases |chunks|
  {
    if chunks != [] {
      LaunchedIsFinal(st, chunks[1..]);
    }
  }

  /**
   * Over any sequence of chunks, the browser is launched at most once, and
   * the flag is set exactly when it has been.
   */
  lemma {:induction false} AtMostOneLaunch(chunks: seq<string>)
    ensures |Replay(Idle, chunks).log| <= 1
    ensures Replay(Idle, chunks).launched <==> Replay(Idle, chunks).log != []
    decreases |chunks|
  {
    if chunks != [] {
      var next := Step(Idle, chunks[0]);
      if next.launched {
        LaunchedIsFinal(next, chunks[1..]);
      } else {
        AtMostOneLaunch(chunks[1..]);
      }
    }
  }

  /**
   * The first chunk in which a pattern matches launches the browser, with the
   * URL built from that chunk's port; nothing later changes it.
   */
  lemma {:induction false} FirstDetectionLaunches(chunks: seq<string>, k: nat)
    requires k < |chunks| && Detect(chunks[k]).Some?
    requires forall j :: 0 <= j < k ==> Detect(chunks[j]).None?
    ensures Replay(Idle, chunks) == WatchState(true, [LocalUrl(Detect(chunks[k]).value.port)])
    decreases k
  {
    if k == 0 {
      LaunchedIsFinal(Step(Idle, chunks[0]), chunks[1..]);
    } else {
      assert Detect(chunks[0]).None?;
      FirstDetectionLaunches(chunks[1..], k - 1);
    }
  }

  /** Nothing is launched exactly when no chunk on its own matches a pattern. */
  lemma {:induction false} NoDetectionNoLaunch(chunks: seq<string>)
    ensures Replay(Idle, chunks) == Idle <==> forall j :: 0 <= j < |chunks| ==> Detect(chunks[j]).None?
    decreases |chunks|
  {
    if chunks != [] {
      if Detect(chunks[0]).Some? {
        FirstDetectionLaunches(chunks, 0);
      } else {
        NoDetectionNoLaunch(chunks[1..]);
        assert forall j :: 1 <= j < |chunks| ==> chunks[j] == chunks[1..][j - 1];
      }
    }
  }

  /** `u` is `http://localhost:` followed by a non-empty run of digits. */
  predicate IsLocalhostUrl(u: string) {
    |u| > 17 && u[..17] == "http://localhost:" && forall k :: 17 <= k < |u| ==> IsDigit(u[k])
  }

  /** The URL built from a detected port has the localhost form. */
  lemma LocalUrlIsLocalhost(port: string)
    requires |port| > 0 && forall k :: 0 <= k < |port| ==> IsDigit(port[k])
    ensures IsLocalhostUrl(LocalUrl(port))
  {
    var u := LocalUrl(port);
    assert forall k :: 17 <= k < |u| ==> u[k] == port[k - 17];
  }

  /**
   * Every launched URL is `http://localhost:` followed by a non-empty run of
   * digits, whichever pattern found the port.
   */
  lemma {:induction false} LaunchedUrlsAreLocalhost(chunks: seq<string>)
    ensures forall u :: u in Replay(Idle, chunks).log ==> IsLocalhostUrl(u)
    decreases |chunks|
  {
    if chunks != [] {
      var next := Step(Idle, chunks[0]);
      if next.launched {
        LaunchedIsFinal(next, chunks[1..]);
        var port := Detect(chunks[0]).value.port;
        assert next.log == [LocalUrl(port)];
        LocalUrlIsLocalhost(port);
      } else {
        LaunchedUrlsAreLocalhost(chunks[1..]);
      }
    }
  }

  /** A run of digits holds neither `localhost:` nor `127.0.0.1:`. */
  lemma DigitsAnnounceNothing(port: string)
    requires forall k :: 0 <= k < |port| ==> IsDigit(port[k])
    ensures Detect(port).None?
  {
    forall j | 0 <= j <= |port|
      ensures !Announces(port, "localhost:", j) && !Announces(port, "127.0.0.1:", j)
    {
      if j + 10 <= |port| {
        assert port[j..j + 10][3] == port[j + 3];
        assert "localhost:"[3] == 'a' && "127.0.0.1:"[3] == '.';
      }
    }
    NothingDetected(port);
  }

  /**
   * Detection is per chunk: `localhost:` at the end of one chunk and the
   * port at the start of the next launch nothing.
   */
  lemma SplitUrlLaunchesNothing(port: string)
    requires forall k :: 0 <= k < |port| ==> IsDigit(port[k])
    ensures Replay(Idle, ["localhost:", port]) == Idle
  {
    var chunks := ["localhost:", port];
    NothingDetected(chunks[0]);
    DigitsAnnounceNothing(chunks[1]);
    NoDetectionNoLaunch(chunks);
  }

  /** The same text in one chunk launches `http://localhost:<port>`. */
  lemma WholeUrlLaunches(port: string)
    requires |port| > 0 && forall k :: 0 <= k < |port| ==> IsDigit(port[k])
    ensures Replay(Idle, ["localhost:" + port]) == WatchState(true, [LocalUrl(port)])
  {
    var s := "localhost:" + port;
    assert Announces(s, "localhost:", 0) by {
      assert s[..10] == "localhost:";
      assert s[10] == port[0];
    }
    LocalhostWins(s, 0);
    assert DigitRun(s, 10) == port by {
      var run := DigitRun(s, 10);
      assert forall k :: 10 <= k < |s| ==> s[k] == port[k - 10];
      assert |run| == |port|;
      assert run == s[10..] == port;
    }
    FirstDetectionLaunches([s], 0);
  }

  /**
   * The `browserLaunched` closure variable and the handler shared by the
   * stdout and stderr streams. Each call of `OnChunk` runs to completion
   * before the next, so the check of the flag and its update are atomic.
   */
  class Watcher {
    var launched: bool
    /** Every chunk handled so far, from both streams, in arrival order. */
    ghost var seen: seq<string>
    /** The URLs passed to `openIncognito`. */
    ghost var launches: seq<string>

    ghost predicate Valid()
      reads this
    {
      WatchState(launched, launches) == Replay(Idle, seen)
    }

    constructor ()
      ensures Valid() && !launched && seen == [] && launches == []
    {
      launched := false;
      seen := [];
      launches := [];
    }

    /** Handles one chunk of output from either stream. */
    method OnChunk(output: string)
      requires Valid()
      modifies this
      ensures Valid() && seen == old(seen) + [output]
      ensures WatchState(launched, launches) == Step(old(WatchState(launched, launches)), output)
      ensures |launches| <= 1
    {
      if !launched {
        var i := 0;
        while i < |Patterns|
          invariant 0 <= i <= |Patterns|
          invariant DetectFrom(output, Patterns, i) == DetectFrom(output, Patterns, 0)
          invariant !launched && launches == old(launches) && seen == old(seen)
        {
          var port := Exec(output, Patterns[i]);
          if port.Some? {
            var url := LocalUrl(port.value);
            launches := launches + [url];
            launched := true;
            break;
          }
          i := i + 1;
        }
      }
      ReplaySnoc(Idle, seen, output);
      seen := seen + [output];
      AtMostOneLaunch(seen);
    }
  }
}
