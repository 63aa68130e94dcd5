/**
 * The sliding windows of the request monitor (core/ids.py): per-address queues that are trimmed when they are looked
 * at. The clock reading is a parameter of every call and never goes back. Ghost logs keep everything ever recorded,
 * for all addresses in one interleaved list; the methods are proved against a plain filter over those logs.
 */
module Ips {

  /** Microseconds. */
  type Time = int

  const MINUTE: Time := 60000000
  const RATE_WINDOW: Time := 15 * MINUTE
  const PATH_WINDOW: Time := MINUTE
  const BRUTE_FORCE := 5
  const PORT_SCAN := 60
  const EXEMPT: set<string> := {"127.0.0.1", "::1"}

  datatype Hit<T> = Hit(at: Time, what: T)

  /** One line of a log. */
  datatype Line<T> = Line(ip: string, hit: Hit<T>)

  // ----- the plain specification -----

  function Of<T>(log: seq<Line<T>>, ip: string): seq<Hit<T>> {
    if log == [] then []
    else
      var last := log[|log| - 1];
      Of(log[..|log| - 1], ip) + if last.ip == ip then [last.hit] else []
  }

  function Since<T>(hits: seq<Hit<T>>, cutoff: Time): seq<Hit<T>> {
    if hits == [] then []
    else
      Since(hits[..|hits| - 1], cutoff) + if hits[|hits| - 1].at >= cutoff then [hits[|hits| - 1]] else []
  }

  function Recent<T>(log: seq<Line<T>>, ip: string, cutoff: Time): seq<Hit<T>> {
    Since(Of(log, ip), cutoff)
  }

  function Distinct<T>(hits: seq<Hit<T>>): set<T> {
    set h | h in hits :: h.what
  }

  predicate Ordered<T>(hits: seq<Hit<T>>) {
    forall i, j :: 0 <= i < j < |hits| ==> hits[i].at <= hits[j].at
  }

  ghost predicate Past<T>(hits: seq<Hit<T>>, now: Time) {
    forall h :: h in hits ==> h.at <= now
  }

  /** defaultdict: an address that was never seen has an empty queue. */
  function Queue<T>(queues: map<string, seq<Hit<T>>>, ip: string): seq<Hit<T>> {
    if ip in queues then queues[ip] else []
  }

  lemma OfSnoc<T>(log: seq<Line<T>>, line: Line<T>, ip: string)
    ensures Of(log + [line], ip) == Of(log, ip) + if line.ip == ip then [line.hit] else []
  {
    assert (log + [line])[..|log|] == log;
  }

  lemma SinceSnoc<T>(hits: seq<Hit<T>>, h: Hit<T>, cutoff: Time)
    ensures Since(hits + [h], cutoff) == Since(hits, cutoff) + if h.at >= cutoff then [h] else []
  {
    assert (hits + [h])[..|hits|] == hits;
  }

  /** An earlier trim never shows in a later one. */
  lemma {:induction false} SinceTwice<T>(hits: seq<Hit<T>>, earlier: Time, later: Time)
    requires earlier <= later
    ensures Since(Since(hits, earlier), later) == Since(hits, later)
  {
    if hits != [] {
      var n := |hits| - 1;
      SinceTwice(hits[..n], earlier, later);
      SinceSnoc(Since(hits[..n], earlier), hits[n], later);
      assert Since(hits[..n], earlier) + [] == Since(hits[..n], earlier);
    }
  }

  lemma {:induction false} SinceMembers<T>(hits: seq<Hit<T>>, cutoff: Time)
    ensures forall h :: h in Since(hits, cutoff) ==> h in hits && h.at >= cutoff
  {
    if hits != [] {
      SinceMembers(hits[..|hits| - 1], cutoff);
    }
  }

  lemma {:induction false} SinceAll<T>(hits: seq<Hit<T>>, cutoff: Time)
    requires forall h :: h in hits ==> h.at >= cutoff
    ensures Since(hits, cutoff) == hits
  {
    if hits != [] {
      SinceAll(hits[..|hits| - 1], cutoff);
      assert hits == hits[..|hits| - 1] + [hits[|hits| - 1]];
    }
  }

  lemma {:induction false} SinceDropsHead<T>(hits: seq<Hit<T>>, cutoff: Time)
    requires hits != [] && hits[0].at < cutoff
    ensures Since(hits[1..], cutoff) == Since(hits, cutoff)
  {
    var n := |hits| - 1;
    if n > 0 {
      SinceDropsHead(hits[..n], cutoff);
      assert hits[..n][1..] == hits[1..][..n - 1];
    }
  }

  /** In an ordered history, n entries are recent exactly when the n-th last one is. */
  lemma {:induction false} EnoughRecent<T>(hits: seq<Hit<T>>, cutoff: Time, n: nat)
    requires Ordered(hits)
    ensures |Since(hits, cutoff)| >= n <==> n == 0 || (|hits| >= n && hits[|hits| - n].at >= cutoff)
  {
    if hits != [] && n > 0 {
      var k := |hits| - 1;
      EnoughRecent(hits[..k], cutoff, n - 1);
      if hits[k].at < cutoff { NoneRecent(hits, cutoff); }
    }
  }

  lemma {:induction false} NoneRecent<T>(hits: seq<Hit<T>>, cutoff: Time)
    requires Ordered(hits) && hits != [] && hits[|hits| - 1].at < cutoff
    ensures Since(hits, cutoff) == []
  {
    if |hits| > 1 { NoneRecent(hits[..|hits| - 1], cutoff); }
  }

  // ----- what the queues have to do with the logs -----

  /** From the cutoff on, every queue agrees with the log, whatever is still kept from before. */
  ghost predicate Faithful<T>(queues: map<string, seq<Hit<T>>>, log: seq<Line<T>>, cutoff: Time, now: Time) {
    forall ip :: AgreesAt(queues, log, ip, cutoff, now)
  }

  ghost predicate AgreesAt<T>(queues: map<string, seq<Hit<T>>>,
                           log: seq<Line<T>>, ip: string, cutoff: Time, now: Time) {
    Agrees(Queue(queues, ip), Of(log, ip), cutoff, now)
  }

  ghost predicate Agrees<T>(queue: seq<Hit<T>>, history: seq<Hit<T>>, cutoff: Time, now: Time) {
    && Since(queue, cutoff) == Since(history, cutoff)
    && Ordered(queue) && Past(queue, now) && Ordered(history) && Past(history, now)
  }

  lemma LaterAgrees<T>(queue: seq<Hit<T>>, history: seq<Hit<T>>, cutoff: Time, now: Time, cutoff': Time, now': Time)
    requires Agrees(queue, history, cutoff, now) && cutoff <= cutoff' && now <= now'
    ensures Agrees(queue, history, cutoff', now')
  {
    SinceTwice(queue, cutoff, cutoff');
    SinceTwice(history, cutoff, cutoff');
  }

  lemma {:induction false} SinceOrdered<T>(hits: seq<Hit<T>>, cutoff: Time)
    requires Ordered(hits)
    ensures Ordered(Since(hits, cutoff))
  {
    if hits != [] {
      SinceOrdered(hits[..|hits| - 1], cutoff);
      SinceMembers(hits[..|hits| - 1], cutoff);
      var front := Since(hits[..|hits| - 1], cutoff);
      forall i | 0 <= i < |front| ensures front[i].at <= hits[|hits| - 1].at {
        assert front[i] in hits[..|hits| - 1];
      }
    }
  }

  lemma TrimmedAgrees<T>(queue: seq<Hit<T>>, history: seq<Hit<T>>, cutoff: Time, now: Time)
    requires Agrees(queue, history, cutoff, now)
    ensures Agrees(Since(queue, cutoff), history, cutoff, now)
  {
    SinceTwice(queue, cutoff, cutoff);
    SinceOrdered(queue, cutoff);
    SinceMembers(queue, cutoff);
  }

  /** Trimming one address keeps faith, for that address and all others. */
  lemma TrimmedFaithful<T>(queues: map<string, seq<Hit<T>>>, log: seq<Line<T>>, cutoff: Time, now: Time,
                           cutoff': Time, now': Time, ip: string)
    requires Faithful(queues, log, cutoff, now) && cutoff <= cutoff' && now <= now'
    ensures Faithful(queues[ip := Recent(log, ip, cutoff')], log, cutoff', now')
    ensures Ordered(Queue(queues, ip)) && Since(Queue(queues, ip), cutoff') == Recent(log, ip, cutoff')
  {
    var queues' := queues[ip := Recent(log, ip, cutoff')];
    forall other ensures AgreesAt(queues', log, other, cutoff', now') {
      assert AgreesAt(queues, log, other, cutoff, now);
      LaterAgrees(Queue(queues, other), Of(log, other), cutoff, now, cutoff', now');
      TrimmedAgrees(Queue(queues, other), Of(log, other), cutoff', now');
    }
    assert AgreesAt(queues, log, ip, cutoff, now);
    LaterAgrees(Queue(queues, ip), Of(log, ip), cutoff, now, cutoff', now');
  }

  lemma AgreesSnoc<T>(queue: seq<Hit<T>>, history: seq<Hit<T>>, cutoff: Time, now: Time, h: Hit<T>)
    requires Agrees(queue, history, cutoff, now) && h.at == now
    ensures Agrees(queue + [h], history + [h], cutoff, now)
  {
    SinceSnoc(queue, h, cutoff);
    SinceSnoc(history, h, cutoff);
    PastSnoc(queue, now, h);
    PastSnoc(history, now, h);
  }

  lemma PastSnoc<T>(hits: seq<Hit<T>>, now: Time, h: Hit<T>)
    requires Ordered(hits) && Past(hits, now) && h.at == now
    ensures Ordered(hits + [h]) && Past(hits + [h], now)
  {
    forall i | 0 <= i < |hits| ensures hits[i].at <= h.at {
      assert hits[i] in hits;
    }
  }

  /** Appending to the queue and to the log keeps faith. */
  lemma RecordedFaithful<T>(queues: map<string, seq<Hit<T>>>, log: seq<Line<T>>, cutoff: Time, now: Time,
                            ip: string, what: T)
    requires Faithful(queues, log, cutoff, now)
    ensures Faithful(queues[ip := Queue(queues, ip) + [Hit(now, what)]], log + [Line(ip, Hit(now, what))], cutoff, now)
  {
    var h := Hit(now, what);
    var queues', log' := queues[ip := Queue(queues, ip) + [h]], log + [Line(ip, h)];
    forall other ensures AgreesAt(queues', log', other, cutoff, now) {
      assert AgreesAt(queues, log, other, cutoff, now);
      RecordedAgrees(queues, log, cutoff, now, ip, h, other);
    }
  }

  lemma QueueUpdated<T>(queues: map<string, seq<Hit<T>>>, ip: string, queue: seq<Hit<T>>, other: string)
    ensures Queue(queues[ip := queue], other) == if other == ip then queue else Queue(queues, other)
  {
  }

  lemma RecordedAgrees<T>(queues: map<string, seq<Hit<T>>>, log: seq<Line<T>>, cutoff: Time, now: Time,
                          ip: string, h: Hit<T>, other: string)
    requires AgreesAt(queues, log, other, cutoff, now) && h.at == now
    ensures AgreesAt(queues[ip := Queue(queues, ip) + [h]], log + [Line(ip, h)], other, cutoff, now)
  {
    OfSnoc(log, Line(ip, h), other);
    QueueUpdated(queues, ip, Queue(queues, ip) + [h], other);
    if other == ip {
      AgreesSnoc(Queue(queues, ip), Of(log, ip), cutoff, now, h);
    } else {
      assert Of(log, other) + [] == Of(log, other);
    }
  }

  ghost predicate Sound<T>(queues: map<string, seq<Hit<T>>>, log: seq<Line<T>>, window: Time, now: Time) {
    Faithful(queues, log, now - window, now)
  }

  /** while dq and dq[0] < cutoff: popleft. */
  method DropOld<T>(queue: seq<Hit<T>>, cutoff: Time) returns (dq: seq<Hit<T>>)
    requires Ordered(queue)
    ensures dq == Since(queue, cutoff)
  {
    dq := queue;
    while dq != [] && dq[0].at < cutoff
      invariant Ordered(dq) && Since(dq, cutoff) == Since(queue, cutoff)
      decreases |dq|
    {
      SinceDropsHead(dq, cutoff);
      dq := dq[1..];
    }
    SinceAll(dq, cutoff);
  }

  lemma CountAfter<T>(log: seq<Line<T>>, ip: string, now: Time, what: T, cutoff: Time)
    requires cutoff <= now
    ensures Recent(log + [Line(ip, Hit(now, what))], ip, cutoff) == Recent(log, ip, cutoff) + [Hit(now, what)]
  {
    OfSnoc(log, Line(ip, Hit(now, what)), ip);
    SinceSnoc(Of(log, ip), Hit(now, what), cutoff);
  }

  method TrimQueue<T>(queues: map<string, seq<Hit<T>>>, ip: string, window: Time, now: Time, ghost log: seq<Line<T>>,
                      ghost clock: Time)
    returns (trimmed: map<string, seq<Hit<T>>>)
    requires Sound(queues, log, window, clock) && clock <= now
    ensures trimmed == queues[ip := Recent(log, ip, now - window)] && Sound(trimmed, log, window, now)
  {
    TrimmedFaithful(queues, log, clock - window, clock, now - window, now, ip);
    var dq := DropOld(Queue(queues, ip), now - window);
    trimmed := queues[ip := dq];
  }

  /** After a trim at the same moment, the queue grows by one hit and so does the log. */
  method AppendHit<T>(queues: map<string, seq<Hit<T>>>, ip: string, window: Time, now: Time, what: T,
                      ghost log: seq<Line<T>>)
    returns (grown: map<string, seq<Hit<T>>>, ghost log': seq<Line<T>>)
    requires Sound(queues, log, window, now) && window >= 0
    requires ip in queues && queues[ip] == Recent(log, ip, now - window)
    ensures log' == log + [Line(ip, Hit(now, what))] && Sound(grown, log', window, now)
    ensures grown == queues[ip := Recent(log', ip, now - window)]
  {
    var queue := Queue(queues, ip) + [Hit(now, what)];
    log' := log + [Line(ip, Hit(now, what))];
    CountAfter(log, ip, now, what, now - window);
    assert queue == Recent(log', ip, now - window);
    RecordedFaithful(queues, log, now - window, now, ip, what);
    grown := queues[ip := queue];
  }

  class IPSState {
    var loginFailures: map<string, seq<Hit<()>>>
    var rateWindow: map<string, seq<Hit<()>>>
    var pathsSeen: map<string, seq<Hit<string>>>

    ghost var clock: Time
    ghost var failureLog: seq<Line<()>>
    ghost var requestLog: seq<Line<()>>
    ghost var pathLog: seq<Line<string>>

    ghost predicate Valid()
      reads this
    {
      && Sound(loginFailures, failureLog, RATE_WINDOW, clock)
      && Sound(rateWindow, requestLog, RATE_WINDOW, clock)
      && Sound(pathsSeen, pathLog, PATH_WINDOW, clock)
    }

    constructor (now: Time)
      ensures Valid() && clock == now && failureLog == [] && requestLog == [] && pathLog == []
    {
      loginFailures, rateWindow, pathsSeen := map[], map[], map[];
      clock, failureLog, requestLog, pathLog := now, [], [], [];
    }

    method Trim(ip: string, now: Time)
      requires Valid() && clock <= now
      modifies `loginFailures, `rateWindow, `pathsSeen, `clock
      ensures Valid() && clock == now
      ensures loginFailures == old(loginFailures)[ip := Recent(failureLog, ip, now - RATE_WINDOW)]
      ensures rateWindow == old(rateWindow)[ip := Recent(requestLog, ip, now - RATE_WINDOW)]
      ensures pathsSeen == old(pathsSeen)[ip := Recent(pathLog, ip, now - PATH_WINDOW)]
    {
      var failures := TrimQueue(loginFailures, ip, RATE_WINDOW, now, failureLog, clock);
      var requests := TrimQueue(rateWindow, ip, RATE_WINDOW, now, requestLog, clock);
      var paths := TrimQueue(pathsSeen, ip, PATH_WINDOW, now, pathLog, clock);
      loginFailures, rateWindow, pathsSeen, clock := failures, requests, paths, now;
    }

    /** The count is the number of failures logged for the address in the last 15 minutes, this one included. */
    method RecordLoginFailure(ip: string, now: Time) returns (count: nat)
      requires Valid() && clock <= now
      modifies `loginFailures, `rateWindow, `pathsSeen, `clock, `failureLog
      ensures Valid() && clock == now && failureLog == old(failureLog) + [Line(ip, Hit(now, ()))]
      ensures count == |Recent(failureLog, ip, now - 15 * 60 * 1000000)|
      ensures forall other :: other != ip ==> Queue(loginFailures, other) == old(Queue(loginFailures, other))
    {
      assert RATE_WINDOW == 15 * 60 * 1000000;
      Trim(ip, now);
      loginFailures, failureLog := AppendHit(loginFailures, ip, RATE_WINDOW, now, (), failureLog);
      count := |loginFailures[ip]|;
    }

    method CheckBruteForce(ip: string, now: Time) returns (r: bool)
      requires Valid() && clock <= now
      modifies `loginFailures, `rateWindow, `pathsSeen, `clock
      ensures Valid() && clock == now
      ensures r <==> |Recent(failureLog, ip, now - 15 * 60 * 1000000)| >= 5
      ensures forall other :: other != ip ==> Queue(loginFailures, other) == old(Queue(loginFailures, other))
    {
      Trim(ip, now);
      r := |loginFailures[ip]| >= BRUTE_FORCE;
    }

    method RecordRequest(ip: string, now: Time) returns (count: nat)
      requires Valid() && clock <= now
      modifies `loginFailures, `rateWindow, `pathsSeen, `clock, `requestLog
      ensures Valid() && clock == now && requestLog == old(requestLog) + [Line(ip, Hit(now, ()))]
      ensures count == |Recent(requestLog, ip, now - 15 * 60 * 1000000)|
      ensures forall other :: other != ip ==> Queue(rateWindow, other) == old(Queue(rateWindow, other))
    {
      Trim(ip, now);
      rateWindow, requestLog := AppendHit(rateWindow, ip, RATE_WINDOW, now, (), requestLog);
      count := |rateWindow[ip]|;
    }

    /** Loopback addresses are exempt, and then nothing is trimmed. */
    method IsRateLimited(ip: string, now: Time, limit: int) returns (r: bool)
      requires Valid() && clock <= now
      modifies `loginFailures, `rateWindow, `pathsSeen, `clock
      ensures Valid() && (ip == "127.0.0.1" || ip == "::1" ==> unchanged(this))
      ensures r <==> ip != "127.0.0.1" && ip != "::1" && |Recent(requestLog, ip, now - 15 * 60 * 1000000)| > limit
      ensures forall other :: other != ip ==> Queue(rateWindow, other) == old(Queue(rateWindow, other))
    {
      if ip in EXEMPT { return false; }
      Trim(ip, now);
      r := |rateWindow[ip]| > limit;
    }

    method RecordPath(ip: string, path: string, now: Time) returns (count: nat)
      requires Valid() && clock <= now
      modifies `loginFailures, `rateWindow, `pathsSeen, `clock, `pathLog
      ensures Valid() && clock == now && pathLog == old(pathLog) + [Line(ip, Hit(now, path))]
      ensures count == |Distinct(Recent(pathLog, ip, now - 60 * 1000000))|
      ensures forall other :: other != ip ==> Queue(pathsSeen, other) == old(Queue(pathsSeen, other))
    {
      Trim(ip, now);
      pathsSeen, pathLog := AppendHit(pathsSeen, ip, PATH_WINDOW, now, path, pathLog);
      count := |Distinct(pathsSeen[ip])|;
    }

    method IsPortScan(ip: string, now: Time) returns (r: bool)
      requires Valid() && clock <= now
      modifies `loginFailures, `rateWindow, `pathsSeen, `clock
      ensures Valid() && clock == now
      ensures r <==> |Distinct(Recent(pathLog, ip, now - 60 * 1000000))| > 60
      ensures forall other :: other != ip ==> Queue(pathsSeen, other) == old(Queue(pathsSeen, other))
    {
      Trim(ip, now);
      r := |Distinct(pathsSeen[ip])| > PORT_SCAN;
    }
  }

  /** Lines of other addresses never matter: the verdicts are about one address's own history. */
  lemma {:induction false} OthersDoNotMatter<T>(log: seq<Line<T>>, ip: string)
    ensures Of(Only(log, ip), ip) == Of(log, ip) && |Only(log, ip)| == |Of(log, ip)|
  {
    if log != [] {
      OthersDoNotMatter(log[..|log| - 1], ip);
      OfSnoc(Only(log[..|log| - 1], ip), log[|log| - 1], ip);
      assert Only(log[..|log| - 1], ip) + [] == Only(log[..|log| - 1], ip);
    }
  }

  function Only<T>(log: seq<Line<T>>, ip: string): seq<Line<T>> {
    if log == [] then []
    else Only(log[..|log| - 1], ip) + if log[|log| - 1].ip == ip then [log[|log| - 1]] else []
  }
}
