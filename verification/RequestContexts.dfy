/** Nested request contexts and their timings: context.py. */
module RequestContexts {
  import opened Wrappers

  type Time = int

  // ----- the context dictionaries

  /** A context dictionary: a key may be absent, and a propagated value may be None. */
  datatype Meta = Meta(requestStart: Option<Option<Time>>, requestEnds: Option<seq<Option<Time>>>,
                       clientStart: Option<Option<Time>>, clientEnd: Option<Option<Time>>)

  const Empty := Meta(None, None, None, None)

  function Flat(v: Option<Option<Time>>): Option<Time> {
    if v.Some? then v.value else None
  }

  function WithRequestStart(meta: Meta, t: Option<Time>): Meta {
    if meta.requestStart.None? && meta.clientStart.Some? then meta.(requestStart := Some(t)) else meta
  }

  function WithRequestEnd(meta: Meta, t: Option<Time>): Meta {
    meta.(requestEnds := Some((if meta.requestEnds.Some? then meta.requestEnds.value else []) + [t]))
  }

  function WithClientStart(meta: Meta, t: Option<Time>): Meta {
    if meta.clientStart.None? then meta.(clientStart := Some(t)) else meta
  }

  function WithClientEnd(meta: Meta, t: Option<Time>): Meta {
    meta.(clientEnd := Some(t))
  }

  /** Only the first request start counts, and none before the client's. The first client start counts, and the last
      client end. */
  lemma {:induction false} FirstAndLast(meta: Meta, t: Option<Time>, u: Option<Time>)
    ensures WithRequestStart(WithRequestStart(meta, t), u) == WithRequestStart(meta, t)
    ensures meta.clientStart.None? ==> WithRequestStart(meta, t) == meta
    ensures WithClientStart(WithClientStart(meta, t), u) == WithClientStart(meta, t)
    ensures WithClientEnd(WithClientEnd(meta, t), u) == WithClientEnd(meta, u)
  {
  }

  function Max(ends: seq<Option<Time>>, limit: Time): Option<Time>
    requires None !in ends
  {
    if ends == [] then None
    else
      var n := |ends| - 1;
      var before := Max(ends[..n], limit);
      if ends[n].value < limit && (before.None? || before.value < ends[n].value) then ends[n] else before
  }

  /** The request_end property: the latest end before the client's; comparing None raises a TypeError. */
  function RequestEnd(meta: Meta): Result<Option<Time>, string> {
    if meta.requestEnds.None? || meta.requestEnds.value == [] || Flat(meta.clientEnd).None? then Ok(None)
    else if None in meta.requestEnds.value then Err("TypeError")
    else Ok(Max(meta.requestEnds.value, meta.clientEnd.value.value))
  }

  /** What leaving a context does to the one around it. */
  function Propagated(outer: Meta, inner: Meta, requestEnd: Option<Time>): Meta {
    var a := WithRequestStart(outer, Flat(inner.requestStart));
    var b := WithRequestEnd(a, requestEnd);
    var c := WithClientStart(b, Flat(inner.clientStart));
    WithClientEnd(c, Flat(inner.clientEnd))
  }

  /** A context in which nothing has been sent yet takes the client's times from one inside, but no request start: that
      is looked at before the client's start is there. */
  lemma {:induction false} PropagatedToEmpty(inner: Meta, requestEnd: Option<Time>)
    ensures Propagated(Empty, inner, requestEnd)
            == Meta(None, Some([requestEnd]), Some(Flat(inner.clientStart)), Some(Flat(inner.clientEnd)))
  {
    assert [] + [requestEnd] == [requestEnd];
  }

  // ----- the program

  class Context {
    var requestStart: Option<Option<Time>>
    var requestEnds: Option<seq<Option<Time>>>
    var clientStart: Option<Option<Time>>
    var clientEnd: Option<Option<Time>>

    ghost function Now(): Meta
      reads this
    {
      Meta(requestStart, requestEnds, clientStart, clientEnd)
    }

    constructor ()
      ensures Now() == Empty
    {
      requestStart, requestEnds, clientStart, clientEnd := None, None, None, None;
    }
  }

  /** The context variable; null when it is not set. */
  class Holder {
    var current: Context?

    constructor ()
      ensures current == null
    {
      current := null;
    }

    /** A new context; the token is the context that was current. */
    method Init() returns (ctx: Context, token: Context?)
      modifies this
      ensures fresh(ctx) && current == ctx && token == old(current) && ctx.Now() == Empty
    {
      token := current;
      ctx := new Context();
      current := ctx;
    }

    method UpdateRequestStart(t: Option<Time>)
      requires current != null
      modifies current
      ensures current.Now() == WithRequestStart(old(current.Now()), t)
    {
      if current.requestStart.None? && current.clientStart.Some? {
        current.requestStart := Some(t);
      }
    }

    method UpdateRequestEnd(t: Option<Time>)
      requires current != null
      modifies current
      ensures current.Now() == WithRequestEnd(old(current.Now()), t)
    {
      if current.requestEnds.None? {
        current.requestEnds := Some([]);
      }
      current.requestEnds := Some(current.requestEnds.value + [t]);
    }

    method UpdateClientStart(t: Option<Time>)
      requires current != null
      modifies current
      ensures current.Now() == WithClientStart(old(current.Now()), t)
    {
      if current.clientStart.None? {
        current.clientStart := Some(t);
      }
    }

    method UpdateClientEnd(t: Option<Time>)
      requires current != null
      modifies current
      ensures current.Now() == WithClientEnd(old(current.Now()), t)
    {
      current.clientEnd := Some(t);
    }

    /** Leave a context: its timings go to the context around it, if there is one. */
    method Exit(ctx: Context, token: Context?) returns (ok: bool)
      requires token != ctx
      modifies this, token
      ensures ok <==> RequestEnd(ctx.Now()).Ok?
      ensures ok ==> current == token
      ensures ok && token != null ==>
                token.Now() == Propagated(old(token.Now()), ctx.Now(), RequestEnd(ctx.Now()).value)
    {
      var requestEnd := RequestEnd(Meta(ctx.requestStart, ctx.requestEnds, ctx.clientStart, ctx.clientEnd));
      if requestEnd.Err? {
        return false;
      }
      current := token;
      if token != null {
        UpdateRequestStart(Flat(ctx.requestStart));
        UpdateRequestEnd(requestEnd.value);
        UpdateClientStart(Flat(ctx.clientStart));
        UpdateClientEnd(Flat(ctx.clientEnd));
      }
      return true;
    }
  }

  // ----- runs

  /** What happens in a context: requests start and end, and other contexts are opened and closed. */
  datatype Scope = Scope(clientStart: Time, events: seq<Event>, clientEnd: Time)

  datatype Event = Start(time: Time) | End(time: Time) | Sub(scope: Scope)

  /** The dictionary of a context after its first n events. */
  function After(scope: Scope, n: nat): Result<Meta, string>
    requires n <= |scope.events|
    decreases scope, n
  {
    if n == 0 then Ok(WithClientStart(Empty, Some(scope.clientStart)))
    else
      var meta := After(scope, n - 1);
      if meta.Err? then meta
      else
        match scope.events[n - 1]
        case Start(t) => Ok(WithRequestStart(meta.value, Some(t)))
        case End(t) => Ok(WithRequestEnd(meta.value, Some(t)))
        case Sub(sub) =>
          var inner := Final(sub);
          if inner.Err? then inner
          else if RequestEnd(inner.value).Err? then Err("TypeError")
          else Ok(Propagated(meta.value, inner.value, RequestEnd(inner.value).value))
  }

  /** The dictionary of a context when it is left. */
  function Final(scope: Scope): Result<Meta, string>
    decreases scope, |scope.events| + 1
  {
    var meta := After(scope, |scope.events|);
    if meta.Err? then meta else Ok(WithClientEnd(meta.value, Some(scope.clientEnd)))
  }

  method Run(holder: Holder, scope: Scope) returns (ok: bool, ctx: Context)
    modifies holder, holder.current
    ensures fresh(ctx)
    ensures ok <==> Final(scope).Ok? && RequestEnd(Final(scope).value).Ok?
    ensures ok ==> holder.current == old(holder.current) && ctx.Now() == Final(scope).value
    ensures ok && holder.current != null ==>
              holder.current.Now() == Propagated(old(holder.current.Now()), ctx.Now(), RequestEnd(ctx.Now()).value)
    decreases scope
  {
    ghost var outer := holder.current;
    var token;
    ctx, token := holder.Init();
    holder.UpdateClientStart(Some(scope.clientStart));
    for n := 0 to |scope.events|
      invariant fresh(ctx) && holder.current == ctx && token == outer
      invariant After(scope, n) == Ok(ctx.Now())
      invariant token != null ==> token.Now() == old(if holder.current == null then Empty else holder.current.Now())
    {
      match scope.events[n] {
        case Start(t) => holder.UpdateRequestStart(Some(t));
        case End(t) => holder.UpdateRequestEnd(Some(t));
        case Sub(sub) =>
          var inside, inner := Run(holder, sub);
          if !inside {
            ErrorStays(scope, n + 1, |scope.events|);
            return false, ctx;
          }
      }
    }
    holder.UpdateClientEnd(Some(scope.clientEnd));
    ok := holder.Exit(ctx, token);
  }

  // ----- what happened

  /** The times at which requests start among the first n events and all the contexts in them. */
  function Starts(scope: Scope, n: nat): set<Time>
    requires n <= |scope.events|
    decreases scope, n
  {
    if n == 0 then {}
    else
      Starts(scope, n - 1)
      + match scope.events[n - 1]
        case Start(t) => {t}
        case End(_) => {}
        case Sub(sub) => Starts(sub, |sub.events|)
  }

  function Ends(scope: Scope, n: nat): set<Time>
    requires n <= |scope.events|
    decreases scope, n
  {
    if n == 0 then {}
    else
      Ends(scope, n - 1)
      + match scope.events[n - 1]
        case Start(_) => {}
        case End(t) => {t}
        case Sub(sub) => Ends(sub, |sub.events|)
  }

  function LastTime(scope: Scope, n: nat): Time
    requires n <= |scope.events|
  {
    if n == 0 then scope.clientStart
    else match scope.events[n - 1]
      case Start(t) => t
      case End(t) => t
      case Sub(sub) => sub.clientEnd
  }

  /** A strictly increasing clock. */
  ghost predicate Clocked(scope: Scope) {
    && LastTime(scope, |scope.events|) < scope.clientEnd
    && forall n :: 0 <= n < |scope.events| ==>
         && LastTime(scope, n) < FirstTime(scope.events[n])
         && (scope.events[n].Sub? ==> Clocked(scope.events[n].scope))
  }

  function FirstTime(event: Event): Time {
    match event
    case Start(t) => t
    case End(t) => t
    case Sub(sub) => sub.clientStart
  }

  lemma {:induction false} ErrorStays(scope: Scope, m: nat, n: nat)
    requires m <= n <= |scope.events| && After(scope, m).Err?
    ensures After(scope, n).Err?
    decreases n
  {
    if m < n {
      ErrorStays(scope, m, n - 1);
    }
  }

  /** Every context has a request: one that starts in it and later ends, in it too or in contexts in it. */
  ghost predicate Busy(scope: Scope) {
    && (exists i, j :: 0 <= i <= j < |scope.events| && Request(scope.events[i], scope.events[j]))
    && forall n :: 0 <= n < |scope.events| && scope.events[n].Sub? ==> Busy(scope.events[n].scope)
  }

  ghost predicate Request(a: Event, b: Event) {
    !a.End? && !b.Start?
  }

  // ----- earliest and latest

  ghost predicate Earliest(t: Time, times: set<Time>) {
    t in times && forall u :: u in times ==> t <= u
  }

  ghost predicate Latest(t: Time, times: set<Time>) {
    t in times && forall u :: u in times ==> u <= t
  }

  ghost predicate Within(times: set<Time>, after: Time, upTo: Time) {
    forall t :: t in times ==> after < t <= upTo
  }

  /** The recorded start is the earliest of these; none is recorded if there are none. */
  ghost predicate StartsAt(recorded: Option<Option<Time>>, times: set<Time>) {
    if times == {} then recorded == None
    else recorded.Some? && recorded.value.Some? && Earliest(recorded.value.value, times)
  }

  /** The recorded ends are some of these, among them the latest. */
  ghost predicate EndsIn(recorded: Option<seq<Option<Time>>>, times: set<Time>) {
    if recorded.None? then times == {}
    else
      && None !in recorded.value
      && (forall v :: v in recorded.value ==> v.value in times)
      && (exists v :: v in recorded.value && Latest(v.value, times))
  }

  lemma {:induction false} MaxBounds(ends: seq<Option<Time>>, limit: Time)
    requires None !in ends
    ensures var r := Max(ends, limit);
            && (r.Some? ==> r in ends && r.value < limit)
            && (forall v :: v in ends && v.value < limit ==> r.Some? && v.value <= r.value)
  {
    if ends != [] {
      MaxBounds(ends[..|ends| - 1], limit);
      assert ends == ends[..|ends| - 1] + [ends[|ends| - 1]];
    }
  }

  lemma {:induction false} LatestIsRecorded(meta: Meta, times: set<Time>, clientEnd: Time)
    requires EndsIn(meta.requestEnds, times) && times != {} && meta.clientEnd == Some(Some(clientEnd))
    requires forall t :: t in times ==> t < clientEnd
    ensures RequestEnd(meta).Ok? && RequestEnd(meta).value.Some? && Latest(RequestEnd(meta).value.value, times)
  {
    var v :| v in meta.requestEnds.value && Latest(v.value, times);
    MaxBounds(meta.requestEnds.value, clientEnd);
  }

  /** The request end is the latest of the ends before the client's, if there is one; what ends later is ignored. */
  lemma {:induction false} LaterEndsAreIgnored(meta: Meta, ends: seq<Option<Time>>, clientEnd: Time)
    requires meta.requestEnds == Some(ends) && None !in ends && meta.clientEnd == Some(Some(clientEnd))
    ensures RequestEnd(meta).Ok?
    ensures var inTime := set v | v in ends && v.value < clientEnd :: v.value;
            if inTime == {} then RequestEnd(meta).value == None
            else RequestEnd(meta).value.Some? && Latest(RequestEnd(meta).value.value, inTime)
  {
    MaxBounds(ends, clientEnd);
    var inTime := set v | v in ends && v.value < clientEnd :: v.value;
    if RequestEnd(meta).value.Some? {
      assert RequestEnd(meta).value.value in inTime;
    }
  }

  lemma {:induction false} StartsTogether(meta: Meta, t: Time, times: set<Time>, more: set<Time>, last: Time)
    requires StartsAt(meta.requestStart, times) && Earliest(t, more) && meta.clientStart.Some?
    requires (forall u :: u in times ==> u <= last) && last < t
    ensures StartsAt(WithRequestStart(meta, Some(t)).requestStart, times + more)
  {
    if times != {} {
      assert meta.requestStart.value.value in times + more;
    } else {
      assert times + more == more;
    }
  }

  lemma {:induction false} EndsTogether(meta: Meta, t: Time, times: set<Time>, more: set<Time>, last: Time)
    requires EndsIn(meta.requestEnds, times) && Latest(t, more)
    requires (forall u :: u in times ==> u <= last) && last < t
    ensures EndsIn(WithRequestEnd(meta, Some(t)).requestEnds, times + more)
  {
    var ends := WithRequestEnd(meta, Some(t)).requestEnds.value;
    assert ends[|ends| - 1] == Some(t);
    assert Latest(t, times + more);
    assert Some(t) in ends && Latest(Some(t).value, times + more);
  }

  // ----- the timings of a run

  /** The dictionary agrees with the requests that started and ended, all after the client's start and up to now. */
  ghost predicate Records(meta: Meta, clientStart: Time, starts: set<Time>, ends: set<Time>, now: Time) {
    && meta.clientStart == Some(Some(clientStart)) && clientStart <= now
    && StartsAt(meta.requestStart, starts) && Within(starts, clientStart, now)
    && EndsIn(meta.requestEnds, ends) && Within(ends, clientStart, now)
  }

  lemma {:induction false} StartRecorded(meta: Meta, cs: Time, starts: set<Time>, ends: set<Time>, now: Time, t: Time)
    requires Records(meta, cs, starts, ends, now) && now < t
    ensures Records(WithRequestStart(meta, Some(t)), cs, starts + {t}, ends, t)
  {
    hide EndsIn;
    StartsTogether(meta, t, starts, {t}, now);
  }

  lemma {:induction false} EndRecorded(meta: Meta, cs: Time, starts: set<Time>, ends: set<Time>, now: Time, t: Time)
    requires Records(meta, cs, starts, ends, now) && now < t
    ensures Records(WithRequestEnd(meta, Some(t)), cs, starts, ends + {t}, t)
  {
    hide StartsAt, EndsIn;
    EndsTogether(meta, t, ends, {t}, now);
  }

  /** The timings of a context that is left: its requests lie within it. */
  ghost predicate Timed(meta: Meta, requestEnd: Option<Time>, cs: Time, starts: set<Time>, ends: set<Time>, ce: Time) {
    && meta.clientStart == Some(Some(cs)) && meta.clientEnd == Some(Some(ce))
    && meta.requestStart.Some? && meta.requestStart.value.Some? && requestEnd.Some?
    && Earliest(meta.requestStart.value.value, starts) && Latest(requestEnd.value, ends)
    && cs < meta.requestStart.value.value < requestEnd.value < ce
    && Within(starts, cs, ce) && Within(ends, cs, ce)
  }

  lemma {:induction false} SubRecorded(meta: Meta, cs: Time, starts: set<Time>, ends: set<Time>, now: Time,
                                       inner: Meta, end: Option<Time>,
                                       ics: Time, istarts: set<Time>, iends: set<Time>, ice: Time)
    requires Records(meta, cs, starts, ends, now) && now < ics && Timed(inner, end, ics, istarts, iends, ice)
    ensures Records(Propagated(meta, inner, end), cs, starts + istarts, ends + iends, ice)
  {
    hide StartsAt, EndsIn;
    var t := inner.requestStart.value.value;
    StartsTogether(meta, t, starts, istarts, now);
    EndsTogether(WithRequestStart(meta, Some(t)), end.value, ends, iends, now);
    assert forall u :: u in istarts ==> t <= u;
  }

  lemma {:induction false} EventClocked(scope: Scope, n: nat)
    requires Clocked(scope) && Busy(scope) && n < |scope.events|
    ensures LastTime(scope, n) < FirstTime(scope.events[n])
    ensures scope.events[n].Sub? ==> Clocked(scope.events[n].scope) && Busy(scope.events[n].scope)
  {
  }

  lemma {:induction false} RecordsAfter(scope: Scope, n: nat)
    requires Clocked(scope) && Busy(scope) && n <= |scope.events|
    ensures After(scope, n).Ok?
    ensures Records(After(scope, n).value, scope.clientStart, Starts(scope, n), Ends(scope, n), LastTime(scope, n))
    decreases scope, n
  {
    hide Records, Timed, Clocked, Busy;
    if n == 0 {
      RecordsNothing(scope);
    } else {
      EventClocked(scope, n - 1);
      RecordsAfter(scope, n - 1);
      var meta := After(scope, n - 1).value;
      var starts, ends, last := Starts(scope, n - 1), Ends(scope, n - 1), LastTime(scope, n - 1);
      match scope.events[n - 1]
      case Start(t) =>
        StartRecorded(meta, scope.clientStart, starts, ends, last, t);
        assert ends + {} == ends;
      case End(t) =>
        EndRecorded(meta, scope.clientStart, starts, ends, last, t);
        assert starts + {} == starts;
      case Sub(sub) =>
        RunTimings(sub);
        var inner := Final(sub).value;
        SubRecorded(meta, scope.clientStart, starts, ends, last,
                    inner, RequestEnd(inner).value, sub.clientStart,
                    Starts(sub, |sub.events|), Ends(sub, |sub.events|), sub.clientEnd);
    }
  }

  lemma {:induction false} RecordsNothing(scope: Scope)
    ensures After(scope, 0).Ok?
    ensures Records(After(scope, 0).value, scope.clientStart, Starts(scope, 0), Ends(scope, 0), LastTime(scope, 0))
  {
  }

  /** In every run with a strictly increasing clock and a request in every context, a context's request start is the
      earliest and its request end the latest in it and all contexts in it, and both lie within the client's. */
  lemma {:induction false} RunTimings(scope: Scope)
    requires Clocked(scope) && Busy(scope)
    ensures Final(scope).Ok? && RequestEnd(Final(scope).value).Ok?
    ensures Timed(Final(scope).value, RequestEnd(Final(scope).value).value, scope.clientStart,
                  Starts(scope, |scope.events|), Ends(scope, |scope.events|), scope.clientEnd)
    decreases scope, |scope.events| + 2
  {
    var n := |scope.events|;
    RecordsAfter(scope, n);
    var s, e := RequestInside(scope);
    LatestIsRecorded(Final(scope).value, Ends(scope, n), scope.clientEnd);
  }

  lemma {:induction false} AboutTimed(scope: Scope)
    requires Final(scope).Ok? && RequestEnd(Final(scope).value).Ok?
    requires Timed(Final(scope).value, RequestEnd(Final(scope).value).value, scope.clientStart,
                   Starts(scope, |scope.events|), Ends(scope, |scope.events|), scope.clientEnd)
    ensures scope.clientStart < scope.clientEnd
    ensures Within(Starts(scope, |scope.events|), scope.clientStart, scope.clientEnd)
  {
  }

  lemma {:induction false} TimePasses(scope: Scope, m: nat, n: nat)
    requires m <= n <= |scope.events| && Clocked(scope) && Busy(scope)
    ensures LastTime(scope, m) <= LastTime(scope, n)
    ensures Starts(scope, m) <= Starts(scope, n) && Ends(scope, m) <= Ends(scope, n)
    decreases scope, n, 0
  {
    hide Clocked, Busy, Timed;
    if m < n {
      EventClocked(scope, n - 1);
      TimePasses(scope, m, n - 1);
      if scope.events[n - 1].Sub? {
        RunTimings(scope.events[n - 1].scope);
        AboutTimed(scope.events[n - 1].scope);
      }
    }
  }

  lemma {:induction false} SomeStart(scope: Scope, n: nat) returns (s: Time)
    requires Clocked(scope) && Busy(scope) && n < |scope.events| && !scope.events[n].End?
    ensures s in Starts(scope, n + 1) && s <= LastTime(scope, n + 1)
    decreases scope, 0
  {
    match scope.events[n]
    case Start(t) => s := t;
    case Sub(sub) =>
      RunTimings(sub);
      s := Final(sub).value.requestStart.value.value;
  }

  lemma {:induction false} SomeEnd(scope: Scope, n: nat) returns (e: Time)
    requires Clocked(scope) && Busy(scope) && n < |scope.events| && !scope.events[n].Start?
    ensures e in Ends(scope, n + 1) && LastTime(scope, n) < e
    decreases scope, 0
  {
    match scope.events[n]
    case End(t) => e := t;
    case Sub(sub) =>
      RunTimings(sub);
      e := RequestEnd(Final(sub).value).value.value;
  }

  lemma {:induction false} SubsTimes(scope: Scope, n: nat)
    requires n < |scope.events| && scope.events[n].Sub?
    ensures var sub := scope.events[n].scope;
            && Starts(sub, |sub.events|) <= Starts(scope, n + 1)
            && Ends(sub, |sub.events|) <= Ends(scope, n + 1)
  {
  }

  lemma {:induction false} RequestInside(scope: Scope) returns (s: Time, e: Time)
    requires Clocked(scope) && Busy(scope)
    ensures s in Starts(scope, |scope.events|) && e in Ends(scope, |scope.events|) && s < e
    decreases scope, |scope.events| + 1, 1
  {
    var i, j :| 0 <= i <= j < |scope.events| && Request(scope.events[i], scope.events[j]);
    s, e := RequestAt(scope, i, j);
  }

  lemma {:induction false} RequestAt(scope: Scope, i: nat, j: nat) returns (s: Time, e: Time)
    requires Clocked(scope) && Busy(scope) && i <= j < |scope.events| && Request(scope.events[i], scope.events[j])
    ensures s in Starts(scope, |scope.events|) && e in Ends(scope, |scope.events|) && s < e
    decreases scope, |scope.events| + 1, 0
  {
    hide Clocked, Busy, Starts, Ends;
    EventClocked(scope, i);
    TimePasses(scope, i + 1, |scope.events|);
    TimePasses(scope, j + 1, |scope.events|);
    if i == j {
      SubsTimes(scope, i);
      s, e := RequestInside(scope.events[i].scope);
    } else {
      TimePasses(scope, i + 1, j);
      s := SomeStart(scope, i);
      e := SomeEnd(scope, j);
    }
  }

  /** A single request in a context. */
  lemma {:induction false} OneRequest(scope: Scope, start: Time, end: Time)
    requires scope.events == [Start(start), End(end)] && scope.clientStart < start < end < scope.clientEnd
    ensures Clocked(scope) && Busy(scope)
    ensures Final(scope).Ok? && Final(scope).value.requestStart == Some(Some(start))
    ensures RequestEnd(Final(scope).value) == Ok(Some(end))
  {
    assert Request(scope.events[0], scope.events[1]);
    assert After(scope, 1) == Ok(WithRequestStart(After(scope, 0).value, Some(start)));
    assert Max([Some(end)], scope.clientEnd) == Some(end);
  }

  // ----- contexts without requests

  /** An end is recorded among the first n events, or a context left, which passes one on. */
  ghost predicate HasEnd(scope: Scope, n: nat)
    requires n <= |scope.events|
  {
    n > 0 && (HasEnd(scope, n - 1) || !scope.events[n - 1].Start?)
  }

  /** Every context in the first n events has an end, and so have the contexts in it; only the outermost may go
      without. */
  ghost predicate NestedEnd(scope: Scope, n: nat)
    requires n <= |scope.events|
    decreases scope, n
  {
    n > 0 ==>
      && NestedEnd(scope, n - 1)
      && (scope.events[n - 1].Sub? ==>
            var sub := scope.events[n - 1].scope; HasEnd(sub, |sub.events|) && NestedEnd(sub, |sub.events|))
  }

  /** The recorded ends: none of them None, and all of them past. */
  ghost predicate EndsKnown(ends: Option<seq<Option<Time>>>, has: bool, now: Time) {
    (ends.Some? <==> has)
    && (ends.Some? ==> ends.value != [] && None !in ends.value && forall v :: v in ends.value ==> v.value <= now)
  }

  /** Once None is among the recorded ends it stays there. */
  ghost predicate Poisoned(meta: Result<Meta, string>) {
    meta.Err? || (meta.value.requestEnds.Some? && None in meta.value.requestEnds.value)
  }

  lemma {:induction false} EndKnown(meta: Meta, has: bool, now: Time, t: Time, later: Time)
    requires EndsKnown(meta.requestEnds, has, now) && now <= later && t <= later
    ensures EndsKnown(WithRequestEnd(meta, Some(t)).requestEnds, true, later)
    ensures EndsKnown(meta.requestEnds, has, later)
  {
  }

  lemma {:induction false} KnownEndIsReported(meta: Meta, has: bool, now: Time, clientEnd: Time)
    requires EndsKnown(meta.requestEnds, has, now) && now < clientEnd && meta.clientEnd == Some(Some(clientEnd))
    ensures RequestEnd(meta).Ok? && (RequestEnd(meta).value.Some? <==> has)
    ensures has ==> RequestEnd(meta).value.value < clientEnd
  {
    if has {
      MaxBounds(meta.requestEnds.value, clientEnd);
      assert meta.requestEnds.value[0] in meta.requestEnds.value;
    }
  }

  lemma {:induction false} ClockedEvent(scope: Scope, n: nat)
    requires Clocked(scope) && n < |scope.events|
    ensures LastTime(scope, n) < FirstTime(scope.events[n]) <= LastTime(scope, n + 1)
    ensures scope.events[n].Sub? ==> Clocked(scope.events[n].scope)
    decreases scope, 0, 0
  {
    if scope.events[n].Sub? {
      ClockedScope(scope.events[n].scope, |scope.events[n].scope.events|);
    }
  }

  lemma {:induction false} ClockedScope(scope: Scope, n: nat)
    requires Clocked(scope) && n <= |scope.events|
    ensures scope.clientStart <= LastTime(scope, n)
    decreases scope, 1, n
  {
    if n > 0 {
      ClockedScope(scope, n - 1);
      ClockedEvent(scope, n - 1);
    }
  }

  lemma {:induction false} NoEndsKnown(now: Time)
    ensures EndsKnown(None, false, now)
  {
  }

  lemma {:induction false} ErrPoisoned(error: string)
    ensures Poisoned(Err(error))
  {
  }

  lemma {:induction false} PoisonStays(scope: Scope, n: nat)
    requires 0 < n <= |scope.events| && Poisoned(After(scope, n - 1))
    ensures Poisoned(After(scope, n))
  {
  }

  lemma {:induction false} EndsAfter(scope: Scope, n: nat)
    requires Clocked(scope) && n <= |scope.events|
    ensures NestedEnd(scope, n) ==>
              && After(scope, n).Ok?
              && EndsKnown(After(scope, n).value.requestEnds, HasEnd(scope, n), LastTime(scope, n))
    ensures !NestedEnd(scope, n) ==> Poisoned(After(scope, n))
    decreases scope, n
  {
    hide Clocked, EndsKnown, Poisoned;
    if n == 0 {
      NoEndsKnown(LastTime(scope, 0));
    } else {
      EndsAfter(scope, n - 1);
      ClockedEvent(scope, n - 1);
      if !NestedEnd(scope, n - 1) {
        PoisonStays(scope, n);
      } else {
        var meta, now, later := After(scope, n - 1).value, LastTime(scope, n - 1), LastTime(scope, n);
        if scope.events[n - 1].Sub? {
          SubEnds(scope.events[n - 1].scope);
          EndsAfterSub(scope, n);
        } else {
          EndKnown(meta, HasEnd(scope, n - 1), now, FirstTime(scope.events[n - 1]), later);
        }
      }
    }
  }

  /** What a context that is left does to the ends of the one around it. */
  lemma {:induction false} EndsAfterSub(scope: Scope, n: nat)
    requires 0 < n <= |scope.events| && scope.events[n - 1].Sub? && NestedEnd(scope, n - 1)
    requires LastTime(scope, n - 1) <= LastTime(scope, n)
    requires After(scope, n - 1).Ok?
             && EndsKnown(After(scope, n - 1).value.requestEnds, HasEnd(scope, n - 1), LastTime(scope, n - 1))
    requires var sub := scope.events[n - 1].scope;
             if NestedEnd(sub, |sub.events|) then
               && Final(sub).Ok? && RequestEnd(Final(sub).value).Ok?
               && (RequestEnd(Final(sub).value).value.Some? <==> HasEnd(sub, |sub.events|))
               && (HasEnd(sub, |sub.events|) ==> RequestEnd(Final(sub).value).value.value < sub.clientEnd)
             else Final(sub).Err? || RequestEnd(Final(sub).value).Err?
    ensures NestedEnd(scope, n) ==>
              && After(scope, n).Ok?
              && EndsKnown(After(scope, n).value.requestEnds, HasEnd(scope, n), LastTime(scope, n))
    ensures !NestedEnd(scope, n) ==> Poisoned(After(scope, n))
  {
    hide EndsKnown, Poisoned, RequestEnd, Final;
    var meta, now, later := After(scope, n - 1).value, LastTime(scope, n - 1), LastTime(scope, n);
    var sub := scope.events[n - 1].scope;
    if NestedEnd(scope, n) {
      EndKnown(meta, HasEnd(scope, n - 1), now, RequestEnd(Final(sub).value).value.value, later);
    } else if NestedEnd(sub, |sub.events|) {
      NoneRecorded(meta);
      SamePoison(meta, Final(sub).value);
    } else {
      ErrPoisoned(After(scope, n).error);
    }
  }

  lemma {:induction false} NoneRecorded(meta: Meta)
    ensures Poisoned(Ok(WithRequestEnd(meta, None)))
  {
    var ends := WithRequestEnd(meta, None).requestEnds.value;
    assert ends[|ends| - 1] == None;
  }

  lemma {:induction false} SamePoison(meta: Meta, inner: Meta)
    ensures Poisoned(Ok(Propagated(meta, inner, None))) == Poisoned(Ok(WithRequestEnd(meta, None)))
  {
  }

  lemma {:induction false} SubEnds(scope: Scope)
    requires Clocked(scope)
    ensures NestedEnd(scope, |scope.events|) ==>
              && Final(scope).Ok? && RequestEnd(Final(scope).value).Ok?
              && (RequestEnd(Final(scope).value).value.Some? <==> HasEnd(scope, |scope.events|))
              && (HasEnd(scope, |scope.events|) ==> RequestEnd(Final(scope).value).value.value < scope.clientEnd)
    ensures !NestedEnd(scope, |scope.events|) ==> Final(scope).Err? || RequestEnd(Final(scope).value).Err?
    decreases scope, |scope.events| + 1
  {
    var n := |scope.events|;
    EndsAfter(scope, n);
    assert LastTime(scope, n) < scope.clientEnd;
    if NestedEnd(scope, n) {
      hide Clocked, EndsKnown;
      KnownEndIsReported(Final(scope).value, HasEnd(scope, n), LastTime(scope, n), scope.clientEnd);
    }
  }

  /** A run raises no error exactly when every context but the outermost records an end or holds a context. */
  lemma {:induction false} NoErrorExactlyWhen(scope: Scope)
    requires Clocked(scope)
    ensures Final(scope).Ok? && RequestEnd(Final(scope).value).Ok? <==> NestedEnd(scope, |scope.events|)
  {
    SubEnds(scope);
  }

  /** The first n events begin, ends apart, with a start, or with a context that begins so. */
  ghost predicate Led(scope: Scope, n: nat)
    requires n <= |scope.events|
    decreases scope, n
  {
    n > 0 &&
    if Begun(scope, n - 1) then Led(scope, n - 1)
    else match scope.events[n - 1]
      case Start(_) => true
      case End(_) => false
      case Sub(sub) => Led(sub, |sub.events|)
  }

  ghost predicate Begun(scope: Scope, n: nat)
    requires n <= |scope.events|
  {
    n > 0 && (Begun(scope, n - 1) || !scope.events[n - 1].End?)
  }

  lemma {:induction false} StartsWithin(scope: Scope, n: nat)
    requires Clocked(scope) && n <= |scope.events|
    ensures Within(Starts(scope, n), scope.clientStart, LastTime(scope, n))
    ensures !Begun(scope, n) ==> Starts(scope, n) == {}
    decreases scope, n
  {
    hide Clocked;
    if n > 0 {
      StartsWithin(scope, n - 1);
      ClockedScope(scope, n - 1);
      ClockedEvent(scope, n - 1);
      if scope.events[n - 1].Sub? {
        var sub := scope.events[n - 1].scope;
        StartsWithin(sub, |sub.events|);
        ClockedEnd(sub);
      }
    }
  }

  lemma {:induction false} ClockedEnd(scope: Scope)
    requires Clocked(scope)
    ensures LastTime(scope, |scope.events|) < scope.clientEnd
  {
  }

  /** What a run records as its start: the earliest, if the events begin with a start; otherwise nothing, or None for
      good. */
  lemma {:induction false} StartRecordedExactlyWhen(scope: Scope, n: nat)
    requires Clocked(scope) && n <= |scope.events| && After(scope, n).Ok?
    ensures var recorded := After(scope, n).value.requestStart;
            && After(scope, n).value.clientStart.Some?
            && (recorded.Some? <==> Begun(scope, n))
            && (Flat(recorded).Some? <==> Led(scope, n))
            && (Led(scope, n) ==> Earliest(recorded.value.value, Starts(scope, n)))
    decreases scope, n
  {
    hide Clocked, Within, Earliest, RequestEnd;
    if n > 0 {
      StartRecordedExactlyWhen(scope, n - 1);
      StartsWithin(scope, n - 1);
      ClockedEvent(scope, n - 1);
      var before, now, event := Starts(scope, n - 1), LastTime(scope, n - 1), scope.events[n - 1];
      var more, after := {}, now;
      match event {
        case Start(t) =>
          more, after := {t}, t - 1;
          OneStart(t);
        case End(_) =>
        case Sub(sub) =>
          StartRecordedExactlyWhen(sub, |sub.events|);
          StartsWithin(sub, |sub.events|);
          more, after := Starts(sub, |sub.events|), sub.clientStart;
      }
      assert Starts(scope, n) == before + more;
      if Led(scope, n - 1) {
        EarliestStays(After(scope, n - 1).value.requestStart.value.value, before, more, scope.clientStart, now, after);
      }
      assert {} + more == more;
    }
  }

  lemma {:induction false} OneStart(t: Time)
    ensures Earliest(t, {t}) && Within({t}, t - 1, t)
  {
  }

  lemma {:induction false} EarliestStays(t: Time, times: set<Time>, more: set<Time>, clientStart: Time, now: Time,
                                         after: Time)
    requires Earliest(t, times) && Within(times, clientStart, now) && now <= after
    requires more == {} || exists later :: Within(more, after, later)
    ensures Earliest(t, times + more)
  {
  }
}
