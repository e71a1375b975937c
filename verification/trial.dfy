/** The credential loop of enumdb.py (`enum_db.db_main`): every username
    with every password, usernames outer, enumerating after each accepted
    login unless only credentials are wanted, and closing each accepted
    connection before the next attempt. */
module Trial {
  import opened Wrappers
  import opened Config
  import opened Driver
  import opened Engine

  /** The parsed command line as the loop reads it. */
  datatype Args = Args(
    users: seq<string>,
    passwords: seq<string>,
    report: string,       // "" when no report was requested
    dbType: string,
    columnSearch: bool,
    verbose: bool,
    brute: bool)

  /** How one target's thread ends: it dies on the first `connect` when the
      database type has no driver, otherwise it finishes with its state and
      the output file it announces, if any. */
  datatype Outcome = Crashed | Finished(st: State, announced: Option<string>)

  /** The enumeration settings of one target. */
  function EnumOptions(args: Args, policy: Policy, target: string): Options
  {
    Options(policy, target, args.dbType, args.report, args.columnSearch, args.verbose)
  }

  /** One pass of the inner loop body. */
  function TryCredential(o: Options, s: Server, brute: bool, user: string, passwd: string, st: State): (r: State)
    requires Ready(o, st.sink)
    ensures Ready(o, r.sink)
  {
    var ok := Connect(s, user, passwd);
    var st1 := State(st.sink, st.trace + [Attempted(user, passwd, ok)]);
    var st2 := if ok && !brute then DbEnum(o, s, st1) else st1;
    if ok then State(st2.sink, st2.trace + [Closed(user, passwd)]) else st2
  }

  /** The inner loop: every password for one user. */
  function TryPasswords(o: Options, s: Server, brute: bool, user: string, passwords: seq<string>, st: State): (r: State)
    requires Ready(o, st.sink)
    ensures Ready(o, r.sink)
    decreases |passwords|
  {
    if passwords == [] then st
    else TryPasswords(o, s, brute, user, passwords[1..], TryCredential(o, s, brute, user, passwords[0], st))
  }

  /** The outer loop: every user. */
  function TryUsers(o: Options, s: Server, brute: bool, users: seq<string>, passwords: seq<string>, st: State): (r: State)
    requires Ready(o, st.sink)
    ensures Ready(o, r.sink)
    decreases |users|
  {
    if users == [] then st
    else TryUsers(o, s, brute, users[1..], passwords, TryPasswords(o, s, brute, users[0], passwords, st))
  }

  /** `db_main` for one target, starting from a fresh `enum_db`. The output
      file was just removed, so it exists at the end exactly when something
      was reported into it. */
  function DbMain(args: Args, policy: Policy, target: string, s: Server): Outcome
  {
    var outfile := GetOutfile(args.report, target);
    if DbObj(args.dbType).None? && |args.users| > 0 && |args.passwords| > 0 then Crashed
    else
      var st := TryUsers(EnumOptions(args, policy, target), s, args.brute, args.users, args.passwords, Fresh);
      Finished(st, if outfile.Some? && st.sink.tableCount > 0 then outfile else None)
  }

  // ---------------------------------------------------------------------
  // Reference definitions

  /** The credentials for one user, in password order. */
  function Pairs(user: string, passwords: seq<string>): (r: seq<(string, string)>)
    ensures |r| == |passwords|
    ensures forall j :: 0 <= j < |passwords| ==> r[j] == (user, passwords[j])
  {
    seq(|passwords|, j requires 0 <= j < |passwords| => (user, passwords[j]))
  }

  /** All credentials, usernames outer and passwords inner. */
  function CrossProduct(users: seq<string>, passwords: seq<string>): seq<(string, string)>
  {
    if users == [] then [] else Pairs(users[0], passwords) + CrossProduct(users[1..], passwords)
  }

  /** The cross product has |users| * |passwords| entries. */
  lemma {:induction false} CrossProductLength(users: seq<string>, passwords: seq<string>)
    ensures |CrossProduct(users, passwords)| == |users| * |passwords|
  {
    if users != [] {
      CrossProductLength(users[1..], passwords);
      assert |users| * |passwords| == |passwords| + (|users| - 1) * |passwords|;
    }
  }

  /** Entry i * |passwords| + j of the cross product is user i with password j. */
  lemma {:induction false} CrossProductAt(users: seq<string>, passwords: seq<string>, i: nat, j: nat)
    requires i < |users| && j < |passwords|
    ensures i * |passwords| + j < |CrossProduct(users, passwords)|
    ensures CrossProduct(users, passwords)[i * |passwords| + j] == (users[i], passwords[j])
  {
    var n := |passwords|;
    var head := Pairs(users[0], passwords);
    var rest := CrossProduct(users[1..], passwords);
    assert CrossProduct(users, passwords) == head + rest;
    if i > 0 {
      CrossProductAt(users[1..], passwords, i - 1, j);
      assert i * n + j == n + ((i - 1) * n + j);
      assert users[1..][i - 1] == users[i];
    }
  }

  /** Only authentication happened: connects and closes. */
  ghost predicate AuthOnly(t: seq<Event>)
  {
    forall i :: 0 <= i < |t| ==> t[i].Attempted? || t[i].Closed?
  }

  // ---------------------------------------------------------------------
  // Sessions

  /** An open accepted connection, if any. */
  type Session = Option<(string, string)>

  /** Replays a trace from a session state: an attempt needs no open
      connection and opens one when accepted; a close must close the open
      connection; enumeration needs one open. Nothing when a rule is broken. */
  function After(t: seq<Event>, open: Session): Option<Session>
  {
    if t == [] then Some(open)
    else
      match t[0]
      case Attempted(u, p, ok) => if open.Some? then None else After(t[1..], if ok then Some((u, p)) else None)
      case Closed(u, p) => if open == Some((u, p)) then After(t[1..], None) else None
      case _ => if open.Some? then After(t[1..], open) else None
  }

  /** Every accepted connection is closed before the next attempt, failed
      attempts are never closed, and enumeration happens only on an
      accepted connection that is still open. */
  ghost predicate Bracketed(t: seq<Event>)
  {
    After(t, None) == Some(None)
  }

  lemma {:induction false} AfterAppend(a: seq<Event>, b: seq<Event>, open: Session)
    ensures After(a + b, open) == (match After(a, open) case None => None case Some(o') => After(b, o'))
  {
    if a == [] {
      assert a + b == b;
    } else {
      assert (a + b)[0] == a[0];
      assert (a + b)[1..] == a[1..] + b;
      match a[0]
      case Attempted(u, p, ok) =>
        AfterAppend(a[1..], b, if ok then Some((u, p)) else None);
      case Closed(u, p) =>
        AfterAppend(a[1..], b, None);
      case _ =>
        AfterAppend(a[1..], b, open);
    }
  }

  lemma {:induction false} AfterEnum(d: seq<Event>, x: (string, string))
    requires EnumOnly(d)
    ensures After(d, Some(x)) == Some(Some(x))
  {
    if d != [] {
      assert EnumOnly(d[1..]) by {
        forall i | 0 <= i < |d[1..]| ensures !d[1..][i].Attempted? && !d[1..][i].Closed? {
          assert d[1..][i] == d[i + 1];
        }
      }
      AfterEnum(d[1..], x);
    }
  }

  lemma {:induction false} EnumOnlyNoAttempts(d: seq<Event>)
    requires EnumOnly(d)
    ensures Attempts(d) == []
  {
    if d != [] {
      assert EnumOnly(d[1..]) by {
        forall i | 0 <= i < |d[1..]| ensures !d[1..][i].Attempted? && !d[1..][i].Closed? {
          assert d[1..][i] == d[i + 1];
        }
      }
      EnumOnlyNoAttempts(d[1..]);
    }
  }

  // ---------------------------------------------------------------------
  // What the loop does

  /** The facts one stretch of the loop establishes: the attempts it made,
      properly bracketed sessions, nothing but authentication in brute
      mode, genuine findings, and a sink still in step with the trace. */
  ghost predicate Steps(o: Options, s: Server, brute: bool, st: State, r: State, attempts: seq<(string, string)>)
  {
    && |st.trace| <= |r.trace| && r.trace[..|st.trace|] == st.trace
    && Attempts(Added(st, r)) == attempts
    && After(Added(st, r), None) == Some(None)
    && (brute ==> AuthOnly(Added(st, r)) && r.sink == st.sink)
    && (forall f :: f in Findings(Added(st, r)) ==> Genuine(s, f))
    && (Sound(o, st) ==> Sound(o, r))
  }

  lemma {:induction false} StepsTrans(o: Options, s: Server, brute: bool, st: State, m: State, r: State,
                                      a: seq<(string, string)>, b: seq<(string, string)>)
    requires Steps(o, s, brute, st, m, a) && Steps(o, s, brute, m, r, b)
    ensures Steps(o, s, brute, st, r, a + b)
  {
    var d1 := Added(st, m);
    var d2 := Added(m, r);
    assert r.trace == m.trace + d2 by { assert r.trace == r.trace[..|m.trace|] + r.trace[|m.trace|..]; }
    assert m.trace == st.trace + d1 by { assert m.trace == m.trace[..|st.trace|] + m.trace[|st.trace|..]; }
    assert r.trace[..|st.trace|] == st.trace;
    assert Added(st, r) == d1 + d2;
    CollectAppend(d1, d2, AttemptOf);
    CollectAppend(d1, d2, FindingOf);
    AfterAppend(d1, d2, None);
    if brute {
      assert AuthOnly(d1 + d2) by {
        forall i | 0 <= i < |d1 + d2| ensures (d1 + d2)[i].Attempted? || (d1 + d2)[i].Closed? {
          if i >= |d1| { assert (d1 + d2)[i] == d2[i - |d1|]; }
        }
      }
    }
  }

  lemma StepsRefl(o: Options, s: Server, brute: bool, st: State)
    ensures Steps(o, s, brute, st, st, [])
  {
    assert Added(st, st) == [];
  }

  lemma TryCredentialRefused(o: Options, s: Server, brute: bool, user: string, passwd: string, st: State)
    requires Ready(o, st.sink) && !Connect(s, user, passwd)
    ensures Steps(o, s, brute, st, TryCredential(o, s, brute, user, passwd, st), [(user, passwd)])
  {
    var r := TryCredential(o, s, brute, user, passwd, st);
    var a := Attempted(user, passwd, false);
    assert r.trace == st.trace + [a];
    assert Added(st, r) == [a];
    assert [a][1..] == [];
    CollectSingle(a, AttemptOf);
    CollectSingle(a, FindingOf);
    CollectAppend(st.trace, [a], FindingOf);
    assert Findings([a]) == [];
    assert Findings(r.trace) == Findings(st.trace);
    assert r.sink == st.sink;
    assert After([a], None) == After([], None);
  }

  lemma TryCredentialBrute(o: Options, s: Server, user: string, passwd: string, st: State)
    requires Ready(o, st.sink) && Connect(s, user, passwd)
    ensures Steps(o, s, true, st, TryCredential(o, s, true, user, passwd, st), [(user, passwd)])
  {
    var r := TryCredential(o, s, true, user, passwd, st);
    var a := Attempted(user, passwd, true);
    var c := Closed(user, passwd);
    assert r.trace == st.trace + [a, c];
    assert Added(st, r) == [a, c];
    CollectTwo(a, c, AttemptOf);
    CollectTwo(a, c, FindingOf);
    CollectSingle(a, AttemptOf);
    CollectSingle(a, FindingOf);
    CollectSingle(c, AttemptOf);
    CollectSingle(c, FindingOf);
    assert [a, c][1..] == [c];
    assert [a, c][1..][1..] == [];
    CollectAppend(st.trace, [a, c], FindingOf);
    assert Findings([a, c]) == [];
    assert Findings(r.trace) == Findings(st.trace);
    assert r.sink == st.sink;
    assert After([a, c], None) == After([c], Some((user, passwd)));
    assert After([c], Some((user, passwd))) == After([], None);
  }

  /** The events of an accepted login that enumerates: the attempt, the
      enumeration's events, the close. */
  lemma SessionEvents(user: string, passwd: string, e: seq<Event>)
    requires EnumOnly(e)
    ensures var d := [Attempted(user, passwd, true)] + e + [Closed(user, passwd)];
      && Attempts(d) == [(user, passwd)]
      && After(d, None) == Some(None)
      && Findings(d) == Findings(e)
  {
    var a, c := Attempted(user, passwd, true), Closed(user, passwd);
    CollectSingle(a, AttemptOf);
    CollectSingle(a, FindingOf);
    CollectSingle(c, AttemptOf);
    CollectSingle(c, FindingOf);
    EnumOnlyNoAttempts(e);
    CollectAppend([a] + e, [c], AttemptOf);
    CollectAppend([a], e, AttemptOf);
    CollectAppend([a] + e, [c], FindingOf);
    CollectAppend([a], e, FindingOf);
    AfterAppend([a] + e, [c], None);
    AfterAppend([a], e, None);
    assert [a][1..] == [];
    assert [c][1..] == [];
    AfterEnum(e, (user, passwd));
  }

  /** An accepted login around any enumeration step is one step of the loop. */
  lemma SessionSteps(o: Options, s: Server, user: string, passwd: string, st: State, st2: State)
    requires Grows(o, s, State(st.sink, st.trace + [Attempted(user, passwd, true)]), st2)
    ensures Steps(o, s, false, st, State(st2.sink, st2.trace + [Closed(user, passwd)]), [(user, passwd)])
  {
    var a, c := Attempted(user, passwd, true), Closed(user, passwd);
    var st1 := State(st.sink, st.trace + [a]);
    var r := State(st2.sink, st2.trace + [c]);
    var e := Added(st1, st2);
    assert st2.trace == st1.trace + e by { assert st2.trace == st2.trace[..|st1.trace|] + st2.trace[|st1.trace|..]; }
    assert r.trace == st.trace + ([a] + e + [c]);
    assert Added(st, r) == [a] + e + [c];
    SessionEvents(user, passwd, e);
    CollectSingle(a, FindingOf);
    CollectSingle(c, FindingOf);
    CollectAppend(st.trace, [a], FindingOf);
    assert Findings(st1.trace) == Findings(st.trace);
    CollectAppend(st2.trace, [c], FindingOf);
    assert Findings(r.trace) == Findings(st2.trace);
  }

  lemma TryCredentialEnumerates(o: Options, s: Server, user: string, passwd: string, st: State)
    requires Ready(o, st.sink) && Connect(s, user, passwd)
    ensures Steps(o, s, false, st, TryCredential(o, s, false, user, passwd, st), [(user, passwd)])
  {
    var st1 := State(st.sink, st.trace + [Attempted(user, passwd, true)]);
    DbEnumGrows(o, s, st1);
    SessionSteps(o, s, user, passwd, st, DbEnum(o, s, st1));
  }

  /** One inner-loop pass: exactly one attempt, a properly closed session,
      and, for an accepted login outside brute mode, one run of `db_enum`
      sampling exactly the walk's hits; otherwise nothing is sampled. */
  lemma TryCredentialSteps(o: Options, s: Server, brute: bool, user: string, passwd: string, st: State)
    requires Ready(o, st.sink)
    ensures Steps(o, s, brute, st, TryCredential(o, s, brute, user, passwd, st), [(user, passwd)])
    ensures Visits(o, s, st, TryCredential(o, s, brute, user, passwd, st),
                   if !brute && Connect(s, user, passwd) then WalkHits(o, s, GetDatabases(s)) else [])
  {
    TryCredentialVisits(o, s, brute, user, passwd, st);
    if !Connect(s, user, passwd) {
      TryCredentialRefused(o, s, brute, user, passwd, st);
    } else if brute {
      TryCredentialBrute(o, s, user, passwd, st);
    } else {
      TryCredentialEnumerates(o, s, user, passwd, st);
    }
  }

  lemma {:induction false} TryPasswordsSteps(o: Options, s: Server, brute: bool, user: string, passwords: seq<string>, st: State)
    requires Ready(o, st.sink)
    ensures Steps(o, s, brute, st, TryPasswords(o, s, brute, user, passwords, st), Pairs(user, passwords))
    decreases |passwords|
  {
    if passwords == [] {
      StepsRefl(o, s, brute, st);
    } else {
      var m := TryCredential(o, s, brute, user, passwords[0], st);
      TryCredentialSteps(o, s, brute, user, passwords[0], st);
      TryPasswordsSteps(o, s, brute, user, passwords[1..], m);
      StepsTrans(o, s, brute, st, m, TryPasswords(o, s, brute, user, passwords[1..], m),
                 [(user, passwords[0])], Pairs(user, passwords[1..]));
      assert [(user, passwords[0])] + Pairs(user, passwords[1..]) == Pairs(user, passwords);
    }
  }

  lemma {:induction false} TryUsersSteps(o: Options, s: Server, brute: bool, users: seq<string>, passwords: seq<string>, st: State)
    requires Ready(o, st.sink)
    ensures Steps(o, s, brute, st, TryUsers(o, s, brute, users, passwords, st), CrossProduct(users, passwords))
    decreases |users|
  {
    if users == [] {
      StepsRefl(o, s, brute, st);
    } else {
      var m := TryPasswords(o, s, brute, users[0], passwords, st);
      TryPasswordsSteps(o, s, brute, users[0], passwords, st);
      TryUsersSteps(o, s, brute, users[1..], passwords, m);
      StepsTrans(o, s, brute, st, m, TryUsers(o, s, brute, users[1..], passwords, m),
                 Pairs(users[0], passwords), CrossProduct(users[1..], passwords));
    }
  }

  lemma RunSteps(args: Args, policy: Policy, target: string, s: Server)
    requires DbMain(args, policy, target, s).Finished?
    ensures var st := DbMain(args, policy, target, s).st;
      Steps(EnumOptions(args, policy, target), s, args.brute, Fresh, st, CrossProduct(args.users, args.passwords))
  {
    TryUsersSteps(EnumOptions(args, policy, target), s, args.brute, args.users, args.passwords, Fresh);
  }

  // ---------------------------------------------------------------------
  // Properties of one target's run

  /** The thread dies exactly when the database type has no driver and
      there is at least one credential to try. */
  lemma DbMainCrashes(args: Args, policy: Policy, target: string, s: Server)
    ensures DbMain(args, policy, target, s).Crashed? <==>
      (forall d: Dialect :: DialectName(d) != args.dbType) && |args.users| > 0 && |args.passwords| > 0
  {
  }

  /** `connect` is tried once per credential of the cross product, in its
      order (usernames outer, passwords inner), |users| * |passwords| times
      in all, whatever succeeds: the loop never stops early. */
  lemma DbMainAttempts(args: Args, policy: Policy, target: string, s: Server)
    requires DbMain(args, policy, target, s).Finished?
    ensures Attempts(DbMain(args, policy, target, s).st.trace) == CrossProduct(args.users, args.passwords)
    ensures |Attempts(DbMain(args, policy, target, s).st.trace)| == |args.users| * |args.passwords|
  {
    RunSteps(args, policy, target, s);
    assert DbMain(args, policy, target, s).st.trace == Added(Fresh, DbMain(args, policy, target, s).st);
    CrossProductLength(args.users, args.passwords);
  }

  /** Every accepted connection is closed before the next attempt, and
      enumeration only happens while an accepted connection is open. */
  lemma DbMainBracketed(args: Args, policy: Policy, target: string, s: Server)
    requires DbMain(args, policy, target, s).Finished?
    ensures Bracketed(DbMain(args, policy, target, s).st.trace)
  {
    RunSteps(args, policy, target, s);
    assert DbMain(args, policy, target, s).st.trace == Added(Fresh, DbMain(args, policy, target, s).st);
  }

  /** In brute mode nothing is enumerated, sampled or reported. */
  lemma DbMainBruteOnly(args: Args, policy: Policy, target: string, s: Server)
    requires args.brute && DbMain(args, policy, target, s).Finished?
    ensures AuthOnly(DbMain(args, policy, target, s).st.trace)
    ensures DbMain(args, policy, target, s).st.sink == Fresh.sink
    ensures DbMain(args, policy, target, s).announced.None?
  {
    RunSteps(args, policy, target, s);
    assert DbMain(args, policy, target, s).st.trace == Added(Fresh, DbMain(args, policy, target, s).st);
  }

  /** The report of a run holds exactly the findings of its trace, in
      order (the csv file one block each; the workbook one overview row and
      one sheet each); `table_count` counts them; each is a real non-empty
      sample; and the output file is announced exactly when a report format
      is set and something was reported. */
  lemma DbMainReport(args: Args, policy: Policy, target: string, s: Server)
    requires DbMain(args, policy, target, s).Finished?
    ensures var r := DbMain(args, policy, target, s);
      var fs := Findings(r.st.trace);
      && Renders(EnumOptions(args, policy, target), r.st.sink, fs)
      && (forall f :: f in fs ==> Genuine(s, f))
      && r.announced == (if args.report != "" && |fs| > 0 then GetOutfile(args.report, target) else None)
  {
    RunSteps(args, policy, target, s);
    assert DbMain(args, policy, target, s).st.trace == Added(Fresh, DbMain(args, policy, target, s).st);
    FreshIsSound(EnumOptions(args, policy, target));
  }

  /** Under the assumption that the server honours the row limit of the
      sampling statement, no finding holds more than 100 rows. */
  lemma DbMainSampleBound(args: Args, policy: Policy, target: string, s: Server)
    requires WithinLimit(s) && DbMain(args, policy, target, s).Finished?
    ensures forall f :: f in Findings(DbMain(args, policy, target, s).st.trace) ==> |f.rows| <= SelectLimit
  {
    DbMainReport(args, policy, target, s);
  }

  // ---------------------------------------------------------------------
  // What each accepted login enumerates

  /** Reference definition: the tables a run over the credentials samples,
      in order. Each accepted login outside brute mode runs one whole walk;
      a refused login or brute mode samples nothing. */
  ghost function RunHits(o: Options, s: Server, brute: bool, creds: seq<(string, string)>): seq<(string, string)>
  {
    if creds == [] then []
    else (if !brute && Connect(s, creds[0].0, creds[0].1) then WalkHits(o, s, GetDatabases(s)) else [])
         + RunHits(o, s, brute, creds[1..])
  }

  lemma {:induction false} RunHitsAppend(o: Options, s: Server, brute: bool, a: seq<(string, string)>, b: seq<(string, string)>)
    ensures RunHits(o, s, brute, a + b) == RunHits(o, s, brute, a) + RunHits(o, s, brute, b)
  {
    if a == [] {
      assert a + b == b;
    } else {
      assert (a + b)[0] == a[0];
      assert (a + b)[1..] == a[1..] + b;
      RunHitsAppend(o, s, brute, a[1..], b);
    }
  }

  /** An accepted session around a walk samples what the walk samples. */
  lemma SessionVisits(o: Options, s: Server, user: string, passwd: string, st: State, st2: State, hits: seq<(string, string)>)
    requires Visits(o, s, State(st.sink, st.trace + [Attempted(user, passwd, true)]), st2, hits)
    ensures Visits(o, s, st, State(st2.sink, st2.trace + [Closed(user, passwd)]), hits)
  {
    var a, c := Attempted(user, passwd, true), Closed(user, passwd);
    var st1 := State(st.sink, st.trace + [a]);
    var r := State(st2.sink, st2.trace + [c]);
    var e := Added(st1, st2);
    assert st2.trace == st1.trace + e by { assert st2.trace == st2.trace[..|st1.trace|] + st2.trace[|st1.trace|..]; }
    assert r.trace == st.trace + ([a] + e + [c]);
    assert Added(st, r) == [a] + e + [c];
    CollectSingle(a, SampleOf);
    CollectSingle(a, FindingOf);
    CollectSingle(c, SampleOf);
    CollectSingle(c, FindingOf);
    CollectAppend([a] + e, [c], SampleOf);
    CollectAppend([a], e, SampleOf);
    CollectAppend([a] + e, [c], FindingOf);
    CollectAppend([a], e, FindingOf);
  }

  /** One inner-loop pass: an accepted login outside brute mode runs
      `db_enum` once, sampling exactly the walk's hits; otherwise nothing
      is sampled or reported. */
  lemma TryCredentialVisits(o: Options, s: Server, brute: bool, user: string, passwd: string, st: State)
    requires Ready(o, st.sink)
    ensures Visits(o, s, st, TryCredential(o, s, brute, user, passwd, st),
                   if !brute && Connect(s, user, passwd) then WalkHits(o, s, GetDatabases(s)) else [])
  {
    var ok := Connect(s, user, passwd);
    var a := Attempted(user, passwd, ok);
    var c := Closed(user, passwd);
    var r := TryCredential(o, s, brute, user, passwd, st);
    if !ok {
      assert r.trace == st.trace + [a];
      assert Added(st, r) == [a];
      CollectSingle(a, SampleOf);
      CollectSingle(a, FindingOf);
    } else if brute {
      assert r.trace == st.trace + [a, c];
      assert Added(st, r) == [a, c];
      CollectTwo(a, c, SampleOf);
      CollectTwo(a, c, FindingOf);
      CollectSingle(a, SampleOf);
      CollectSingle(a, FindingOf);
      CollectSingle(c, SampleOf);
      CollectSingle(c, FindingOf);
    } else {
      var st1 := State(st.sink, st.trace + [a]);
      DbEnumGrows(o, s, st1);
      SessionVisits(o, s, user, passwd, st, DbEnum(o, s, st1), WalkHits(o, s, GetDatabases(s)));
    }
  }

  lemma {:induction false} TryPasswordsVisits(o: Options, s: Server, brute: bool, user: string, passwords: seq<string>, st: State)
    requires Ready(o, st.sink)
    ensures Visits(o, s, st, TryPasswords(o, s, brute, user, passwords, st), RunHits(o, s, brute, Pairs(user, passwords)))
    decreases |passwords|
  {
    if passwords == [] {
      VisitsRefl(o, s, st);
    } else {
      var ps := Pairs(user, passwords);
      var m := TryCredential(o, s, brute, user, passwords[0], st);
      var first := if !brute && Connect(s, user, passwords[0]) then WalkHits(o, s, GetDatabases(s)) else [];
      TryCredentialVisits(o, s, brute, user, passwords[0], st);
      TryPasswordsVisits(o, s, brute, user, passwords[1..], m);
      VisitsTrans(o, s, st, m, TryPasswords(o, s, brute, user, passwords[1..], m),
                  first, RunHits(o, s, brute, Pairs(user, passwords[1..])));
      assert ps[0] == (user, passwords[0]);
      assert ps[1..] == Pairs(user, passwords[1..]);
    }
  }

  lemma {:induction false} TryUsersVisits(o: Options, s: Server, brute: bool, users: seq<string>, passwords: seq<string>, st: State)
    requires Ready(o, st.sink)
    ensures Visits(o, s, st, TryUsers(o, s, brute, users, passwords, st), RunHits(o, s, brute, CrossProduct(users, passwords)))
    decreases |users|
  {
    if users == [] {
      VisitsRefl(o, s, st);
    } else {
      var m := TryPasswords(o, s, brute, users[0], passwords, st);
      TryPasswordsVisits(o, s, brute, users[0], passwords, st);
      TryUsersVisits(o, s, brute, users[1..], passwords, m);
      VisitsTrans(o, s, st, m, TryUsers(o, s, brute, users[1..], passwords, m),
                  RunHits(o, s, brute, Pairs(users[0], passwords)), RunHits(o, s, brute, CrossProduct(users[1..], passwords)));
      RunHitsAppend(o, s, brute, Pairs(users[0], passwords), CrossProduct(users[1..], passwords));
    }
  }

  /** The tables a run samples are, in order, one whole walk per accepted
      credential of the cross product (none in brute mode), and the
      findings reported are exactly their non-empty samples when a report
      is set. */
  lemma DbMainSamples(args: Args, policy: Policy, target: string, s: Server)
    requires DbMain(args, policy, target, s).Finished?
    ensures var o := EnumOptions(args, policy, target);
      var t := DbMain(args, policy, target, s).st.trace;
      var hits := RunHits(o, s, args.brute, CrossProduct(args.users, args.passwords));
      Samples(t) == hits && Findings(t) == Reportable(o, s, hits)
  {
    TryUsersVisits(EnumOptions(args, policy, target), s, args.brute, args.users, args.passwords, Fresh);
    assert DbMain(args, policy, target, s).st.trace == Added(Fresh, DbMain(args, policy, target, s).st);
  }
}
