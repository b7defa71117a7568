/** Python's scoping rule applied to the `/stats` handlers. A name that a
    function binds anywhere in its body (an assignment target, a `for` loop
    target) is local to the whole body, decided before the body runs; reading
    a local name before it has been bound raises `UnboundLocalError`. Both
    handlers read the Flask `session` on their first line and bind `session`
    later as the loop variable over the query results, so the first line
    raises. The statistics methods of this model follow the handlers with
    that loop variable renamed. */
module HandlerScope {
  import opened Wrappers

  /** The identifiers the two handlers use. `WorkSessionModel` is the
      `WorkSession` model class; `Record` is the renamed loop variable. */
  datatype Name =
    | Session | Request | DataSource | DateTime | Now | TimeDelta | WeekAgo | WorkSessionModel
    | WorkSessions | Sum | TotalTime | DailyTimes | DailyTexts | Day | SheetsData | Item | DateObj
    | Jsonify | Record

  /** One occurrence of a name: read, or bound. */
  datatype Use = Read(name: Name) | Bind(name: Name)

  /** The names the body binds somewhere: the body's local names. */
  function Locals(body: seq<Use>): (ns: set<Name>)
    ensures forall n :: n in ns <==> exists i :: 0 <= i < |body| && body[i] == Bind(n)
  {
    set i | 0 <= i < |body| && body[i].Bind? :: body[i].name
  }

  /** Where a bind sits in the body does not matter: the locals of a body
      are the locals of its parts, and a read makes nothing local. */
  lemma LocalsAppend(a: seq<Use>, b: seq<Use>, n: Name)
    ensures Locals(a + b) == Locals(a) + Locals(b)
    ensures Locals([Read(n)]) == {}
  {
    var ab := a + b;
    forall m | m in Locals(ab)
      ensures m in Locals(a) + Locals(b)
    {
      var i :| 0 <= i < |ab| && ab[i] == Bind(m);
      if i < |a| {
        assert a[i] == Bind(m);
      } else {
        assert b[i - |a|] == Bind(m);
      }
    }
    forall m | m in Locals(a) + Locals(b)
      ensures m in Locals(ab)
    {
      if m in Locals(a) {
        var i :| 0 <= i < |a| && a[i] == Bind(m);
        assert ab[i] == Bind(m);
      } else {
        var i :| 0 <= i < |b| && b[i] == Bind(m);
        assert ab[|a| + i] == Bind(m);
      }
    }
  }

  /** Runs the uses of one execution in order, `bound` holding the local names
      bound so far: the first local name read while still unbound, if any. */
  function Run(trace: seq<Use>, locals: set<Name>, bound: set<Name>): Option<Name> {
    if trace == [] then None
    else
      match trace[0]
      case Read(n) => if n in locals && n !in bound then Some(n) else Run(trace[1..], locals, bound)
      case Bind(n) => Run(trace[1..], locals, bound + {n})
  }

  /** Every read of a local name happens after a bind of that name, or the
      name was bound before the trace starts. */
  ghost predicate BoundBeforeRead(trace: seq<Use>, locals: set<Name>, bound: set<Name>) {
    forall i :: 0 <= i < |trace| && trace[i].Read? && trace[i].name in locals && trace[i].name !in bound ==>
      exists j :: 0 <= j < i && trace[j] == Bind(trace[i].name)
  }

  /** An execution raises no `UnboundLocalError` exactly when it binds every
      local name before reading it. */
  lemma {:induction false} RunSpec(trace: seq<Use>, locals: set<Name>, bound: set<Name>)
    ensures Run(trace, locals, bound) == None <==> BoundBeforeRead(trace, locals, bound)
    decreases |trace|
  {
    if trace != [] {
      var rest := trace[1..];
      match trace[0]
      case Read(n) =>
        RunSpec(rest, locals, bound);
        if !(n in locals && n !in bound) {
          if BoundBeforeRead(rest, locals, bound) {
            forall i | 0 <= i < |trace| && trace[i].Read? && trace[i].name in locals && trace[i].name !in bound
              ensures exists j :: 0 <= j < i && trace[j] == Bind(trace[i].name)
            {
              var j :| 0 <= j < i - 1 && rest[j] == Bind(rest[i - 1].name);
              assert trace[j + 1] == rest[j];
            }
          }
          if BoundBeforeRead(trace, locals, bound) {
            forall i | 0 <= i < |rest| && rest[i].Read? && rest[i].name in locals && rest[i].name !in bound
              ensures exists j :: 0 <= j < i && rest[j] == Bind(rest[i].name)
            {
              assert trace[i + 1] == rest[i];
              var j :| 0 <= j < i + 1 && trace[j] == Bind(trace[i + 1].name);
              assert rest[j - 1] == trace[j];
            }
          }
        }
      case Bind(n) =>
        RunSpec(rest, locals, bound + {n});
        if BoundBeforeRead(rest, locals, bound + {n}) {
          forall i | 0 <= i < |trace| && trace[i].Read? && trace[i].name in locals && trace[i].name !in bound
            ensures exists j :: 0 <= j < i && trace[j] == Bind(trace[i].name)
          {
            if trace[i].name == n {
              assert trace[0] == Bind(trace[i].name);
            } else {
              var j :| 0 <= j < i - 1 && rest[j] == Bind(rest[i - 1].name);
              assert trace[j + 1] == rest[j];
            }
          }
        }
        if BoundBeforeRead(trace, locals, bound) {
          forall i | 0 <= i < |rest| && rest[i].Read? && rest[i].name in locals && rest[i].name !in bound + {n}
            ensures exists j :: 0 <= j < i && rest[j] == Bind(rest[i].name)
          {
            assert trace[i + 1] == rest[i];
            var j :| 0 <= j < i + 1 && trace[j] == Bind(trace[i + 1].name);
            assert rest[j - 1] == trace[j];
          }
        }
    }
  }

  /** A body that binds n anywhere and whose execution starts by reading n
      raises `UnboundLocalError` for n, whatever follows. */
  lemma ReadFirstFails(body: seq<Use>, trace: seq<Use>, n: Name, k: nat)
    requires k < |body| && body[k] == Bind(n)
    requires trace != [] && trace[0] == Read(n)
    ensures Run(trace, Locals(body), {}) == Some(n)
  {
  }

  /** The binds of `get_stats` in app.py (lines 131-202), in source order,
      with the given name as the loop variable of the local branch. */
  function AppStatsBinds(loopVar: Name): seq<Use> {
    [ Bind(DataSource), Bind(Now), Bind(WeekAgo), Bind(WorkSessions), Bind(TotalTime),
      Bind(DailyTimes), Bind(DailyTexts), Bind(loopVar), Bind(Day), Bind(SheetsData),
      Bind(Now), Bind(WeekAgo), Bind(DailyTimes), Bind(DailyTexts), Bind(TotalTime),
      Bind(Item), Bind(DateObj), Bind(Day) ]
  }

  /** The binds of `get_stats` in netlify/functions/app.py (lines 104-126). */
  function NetlifyStatsBinds(loopVar: Name): seq<Use> {
    [ Bind(Now), Bind(WeekAgo), Bind(WorkSessions), Bind(TotalTime), Bind(DailyTimes),
      Bind(loopVar), Bind(Day) ]
  }

  /** As written, every request to the app.py `/stats` handler fails on its
      first line: whichever branch it would take, it starts by reading
      `session`, which the loop at line 152 makes local. */
  lemma AppStatsAsWrittenFails(trace: seq<Use>)
    requires trace != [] && trace[0] == Read(Session)
    ensures Run(trace, Locals(AppStatsBinds(Session)), {}) == Some(Session)
  {
    ReadFirstFails(AppStatsBinds(Session), trace, Session, 7);
  }

  /** The same holds for the netlify handler, whose loop at line 119 binds
      `session`. */
  lemma NetlifyStatsAsWrittenFails(trace: seq<Use>)
    requires trace != [] && trace[0] == Read(Session)
    ensures Run(trace, Locals(NetlifyStatsBinds(Session)), {}) == Some(Session)
  {
    ReadFirstFails(NetlifyStatsBinds(Session), trace, Session, 5);
  }

  /** Only local names are reported: reading a name the body never binds
      (a global such as the Flask `session`) never raises. */
  lemma {:induction false} NonLocalNeverUnbound(trace: seq<Use>, locals: set<Name>, bound: set<Name>, n: Name)
    requires n !in locals
    ensures Run(trace, locals, bound) != Some(n)
    decreases |trace|
  {
    if trace != [] {
      match trace[0]
      case Read(m) =>
        NonLocalNeverUnbound(trace[1..], locals, bound, n);
      case Bind(m) =>
        NonLocalNeverUnbound(trace[1..], locals, bound + {m}, n);
    }
  }

  /** With the loop variable renamed, `session` is the Flask session again in
      the app.py handler: no request raises `UnboundLocalError` for it. */
  lemma AppStatsCorrectedRuns(trace: seq<Use>)
    ensures Session !in Locals(AppStatsBinds(Record))
    ensures Run(trace, Locals(AppStatsBinds(Record)), {}) != Some(Session)
  {
    NonLocalNeverUnbound(trace, Locals(AppStatsBinds(Record)), {}, Session);
  }

  /** The same for the netlify handler. */
  lemma NetlifyStatsCorrectedRuns(trace: seq<Use>)
    ensures Session !in Locals(NetlifyStatsBinds(Record))
    ensures Run(trace, Locals(NetlifyStatsBinds(Record)), {}) != Some(Session)
  {
    NonLocalNeverUnbound(trace, Locals(NetlifyStatsBinds(Record)), {}, Session);
  }
}
