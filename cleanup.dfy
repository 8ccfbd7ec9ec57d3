/** The accounting loop of Engine.cleanupAll: every GM is either removed
    (when expired) or has its own games cleaned up, and the freed resources
    are added up. The GM's own decisions and work (hasExpired, preDelete,
    cleanup) arrive as data. */
module Cleanup {

  /** What `gm.cleanup(db, now)` returns: the URLs of the games it removed and
      the bytes, dice rolls, tokens and md5 records it freed. */
  datatype GmCleanup = GmCleanup(games: seq<string>, bytes: int, rolls: int, tokens: int, md5s: int)

  /** One GM as the sweep sees it: its URL, `gm.hasExpired(now)`, the bytes
      `gm.preDelete()` frees, and what `gm.cleanup(...)` would return. */
  datatype Gm = Gm(url: string, expired: bool, preDeleteBytes: int, cleanup: GmCleanup)

  /** The tuple cleanupAll returns. */
  datatype Report = Report(gms: seq<string>, games: seq<string>, numZips: nat,
                           numBytes: int, numRolls: int, numTokens: int, numMd5s: int)

  /** The counters a GM's own cleanup contributes to. */
  datatype Counter = Bytes | Rolls | Tokens | Md5s

  function Count(c: GmCleanup, k: Counter): int {
    match k
    case Bytes => c.bytes
    case Rolls => c.rolls
    case Tokens => c.tokens
    case Md5s => c.md5s
  }

  // Reference definitions, one per result, each a fold from the left.

  /** The URLs of the expired GMs, in the order they are visited. */
  function ExpiredUrls(s: seq<Gm>): seq<string> {
    if s == [] then []
    else ExpiredUrls(s[..|s| - 1]) + (if s[|s| - 1].expired then [s[|s| - 1].url] else [])
  }

  /** The games removed by the GMs that did not expire, in order. */
  function RemovedGames(s: seq<Gm>): seq<string> {
    if s == [] then []
    else RemovedGames(s[..|s| - 1]) + (if s[|s| - 1].expired then [] else s[|s| - 1].cleanup.games)
  }

  /** The bytes freed by deleting the expired GMs. */
  function PreDeleteBytes(s: seq<Gm>): int {
    if s == [] then 0
    else PreDeleteBytes(s[..|s| - 1]) + (if s[|s| - 1].expired then s[|s| - 1].preDeleteBytes else 0)
  }

  /** A counter summed over the cleanups of the GMs that did not expire. */
  function LiveSum(s: seq<Gm>, k: Counter): int {
    if s == [] then 0
    else LiveSum(s[..|s| - 1], k) + (if s[|s| - 1].expired then 0 else Count(s[|s| - 1].cleanup, k))
  }

  /** The number of expired GMs. */
  function ExpiredCount(s: seq<Gm>): nat {
    if s == [] then 0
    else ExpiredCount(s[..|s| - 1]) + (if s[|s| - 1].expired then 1 else 0)
  }

  /** Engine.cleanupAll, given the GMs in the order the database yields them,
      the number of exported zip files and the size reported for their folder. */
  method CleanupAll(gms: seq<Gm>, numZips: nat, exportBytes: int) returns (r: Report)
    ensures r.gms == ExpiredUrls(gms)
    ensures r.games == RemovedGames(gms)
    ensures r.numZips == numZips
    ensures r.numBytes == PreDeleteBytes(gms) + LiveSum(gms, Bytes) + (if numZips > 0 then exportBytes else 0)
    ensures r.numRolls == LiveSum(gms, Rolls)
    ensures r.numTokens == LiveSum(gms, Tokens)
    ensures r.numMd5s == LiveSum(gms, Md5s)
  {
    var removedGms: seq<string> := [];
    var games: seq<string> := [];
    var numBytes, numRolls, numTokens, numMd5s := 0, 0, 0, 0;
    var i := 0;
    while i < |gms|
      invariant 0 <= i <= |gms|
      invariant removedGms == ExpiredUrls(gms[..i])
      invariant games == RemovedGames(gms[..i])
      invariant numBytes == PreDeleteBytes(gms[..i]) + LiveSum(gms[..i], Bytes)
      invariant numRolls == LiveSum(gms[..i], Rolls)
      invariant numTokens == LiveSum(gms[..i], Tokens)
      invariant numMd5s == LiveSum(gms[..i], Md5s)
    {
      var gm := gms[i];
      assert gms[..i + 1][..i] == gms[..i] && gms[..i + 1][i] == gm;
      i := i + 1;
      if gm.expired {
        numBytes := numBytes + gm.preDeleteBytes;
        removedGms := removedGms + [gm.url];
        continue;
      }
      var c := gm.cleanup;
      games := games + c.games;
      numBytes := numBytes + c.bytes;
      numRolls := numRolls + c.rolls;
      numTokens := numTokens + c.tokens;
      numMd5s := numMd5s + c.md5s;
    }
    assert gms[..i] == gms;
    if numZips > 0 {
      numBytes := numBytes + exportBytes;
    }
    r := Report(removedGms, games, numZips, numBytes, numRolls, numTokens, numMd5s);
  }

  lemma ConcatFront(a: seq<Gm>, b: seq<Gm>)
    requires b != []
    ensures (a + b)[..|a + b| - 1] == a + b[..|b| - 1]
    ensures (a + b)[|a + b| - 1] == b[|b| - 1]
  {
  }

  lemma {:induction false} ExpiredUrlsSplit(a: seq<Gm>, b: seq<Gm>)
    ensures ExpiredUrls(a + b) == ExpiredUrls(a) + ExpiredUrls(b)
  {
    if b == [] {
      assert a + b == a;
    } else {
      ExpiredUrlsSplit(a, b[..|b| - 1]);
      ConcatFront(a, b);
    }
  }

  lemma {:induction false} RemovedGamesSplit(a: seq<Gm>, b: seq<Gm>)
    ensures RemovedGames(a + b) == RemovedGames(a) + RemovedGames(b)
  {
    if b == [] {
      assert a + b == a;
    } else {
      var front, gm := b[..|b| - 1], b[|b| - 1];
      var x := if gm.expired then [] else gm.cleanup.games;
      RemovedGamesSplit(a, front);
      ConcatFront(a, b);
      calc {
        RemovedGames(a + b);
        RemovedGames(a + front) + x;
        RemovedGames(a) + RemovedGames(front) + x;
        RemovedGames(a) + (RemovedGames(front) + x);
        RemovedGames(a) + RemovedGames(b);
      }
    }
  }

  lemma {:induction false} PreDeleteBytesSplit(a: seq<Gm>, b: seq<Gm>)
    ensures PreDeleteBytes(a + b) == PreDeleteBytes(a) + PreDeleteBytes(b)
  {
    if b == [] {
      assert a + b == a;
    } else {
      PreDeleteBytesSplit(a, b[..|b| - 1]);
      ConcatFront(a, b);
    }
  }

  lemma {:induction false} LiveSumSplit(a: seq<Gm>, b: seq<Gm>, k: Counter)
    ensures LiveSum(a + b, k) == LiveSum(a, k) + LiveSum(b, k)
  {
    if b == [] {
      assert a + b == a;
    } else {
      LiveSumSplit(a, b[..|b| - 1], k);
      ConcatFront(a, b);
    }
  }

  /** A sweep over a + b adds up as a sweep over a followed by one over b,
      so a sweep may stop and resume anywhere with the same totals. */
  lemma SweepSplits(a: seq<Gm>, b: seq<Gm>)
    ensures ExpiredUrls(a + b) == ExpiredUrls(a) + ExpiredUrls(b)
    ensures RemovedGames(a + b) == RemovedGames(a) + RemovedGames(b)
    ensures PreDeleteBytes(a + b) == PreDeleteBytes(a) + PreDeleteBytes(b)
    ensures forall k :: LiveSum(a + b, k) == LiveSum(a, k) + LiveSum(b, k)
  {
    ExpiredUrlsSplit(a, b);
    RemovedGamesSplit(a, b);
    PreDeleteBytesSplit(a, b);
    forall k {
      LiveSumSplit(a, b, k);
    }
  }

  /** A URL is reported exactly when it belongs to a GM that expired. */
  lemma {:induction false} ExpiredUrlsExact(s: seq<Gm>, url: string)
    ensures url in ExpiredUrls(s) <==> exists i :: 0 <= i < |s| && s[i].expired && s[i].url == url
    ensures |ExpiredUrls(s)| == ExpiredCount(s)
  {
    if s != [] {
      var front := s[..|s| - 1];
      ExpiredUrlsExact(front, url);
      assert forall i :: 0 <= i < |front| ==> front[i] == s[i];
      if url in ExpiredUrls(front) {
        var i :| 0 <= i < |front| && front[i].expired && front[i].url == url;
        assert s[i].expired && s[i].url == url;
      }
    }
  }

  /** An expired GM is only deleted: what its cleanup would have returned
      never reaches the totals. */
  lemma ExpiredSkipsCleanup(a: seq<Gm>, gm: Gm, b: seq<Gm>, c: GmCleanup)
    requires gm.expired
    ensures var s, t := a + [gm] + b, a + [gm.(cleanup := c)] + b;
      ExpiredUrls(s) == ExpiredUrls(t) && RemovedGames(s) == RemovedGames(t) &&
      PreDeleteBytes(s) == PreDeleteBytes(t) && forall k :: LiveSum(s, k) == LiveSum(t, k)
  {
    var gm' := gm.(cleanup := c);
    SweepSplits(a, [gm]);
    SweepSplits(a + [gm], b);
    SweepSplits(a, [gm']);
    SweepSplits(a + [gm'], b);
    assert [gm][..0] == [] && [gm'][..0] == [];
  }

  /** A GM that did not expire is never deleted: its preDelete size does not count. */
  lemma LiveSkipsPreDelete(a: seq<Gm>, gm: Gm, b: seq<Gm>, bytes: int)
    requires !gm.expired
    ensures var s, t := a + [gm] + b, a + [gm.(preDeleteBytes := bytes)] + b;
      ExpiredUrls(s) == ExpiredUrls(t) && RemovedGames(s) == RemovedGames(t) &&
      PreDeleteBytes(s) == PreDeleteBytes(t) && forall k :: LiveSum(s, k) == LiveSum(t, k)
  {
    var gm' := gm.(preDeleteBytes := bytes);
    SweepSplits(a, [gm]);
    SweepSplits(a + [gm], b);
    SweepSplits(a, [gm']);
    SweepSplits(a + [gm'], b);
    assert [gm][..0] == [] && [gm'][..0] == [];
  }

  /** When no GM expired, none is reported and nothing is freed by deletion. */
  lemma {:induction false} NoneExpired(s: seq<Gm>)
    requires forall i :: 0 <= i < |s| ==> !s[i].expired
    ensures ExpiredUrls(s) == [] && PreDeleteBytes(s) == 0
  {
    if s != [] {
      NoneExpired(s[..|s| - 1]);
    }
  }

  /** When every GM expired, no game cleanup runs and every GM is reported. */
  lemma {:induction false} AllExpired(s: seq<Gm>)
    requires forall i :: 0 <= i < |s| ==> s[i].expired
    ensures RemovedGames(s) == [] && |ExpiredUrls(s)| == |s|
    ensures forall k :: LiveSum(s, k) == 0
  {
    if s != [] {
      AllExpired(s[..|s| - 1]);
    }
  }
}
