/** Supervision: the `Raise` op consults the trap of the template at its
    destination and decides whether to escalate the error to the parent,
    ignore it, restart the original raiser or stop it. `Supervise` follows
    the escalations up the address tree until a decision is reached. */
module Supervision {
  import opened Wrappers
  import opened Values
  import opened AddressTree
  import opened Template

  /** The `Raise` instruction: an error, the address that raised it first
      (`src`) and the address whose template is consulted now (`dest`). */
  datatype Raise = Raise(error: Err, src: Address, dest: Address)

  /** The op `execRaise` hands to the executor next. */
  datatype NextOp =
    | Escalate(next: Raise)
    | Restart(target: Address)
    | Stop(target: Address)

  /** `execRaise`: one supervision step over the template table. Without a
      template at `dest` nothing happens. Escalation always carries the same
      error and source to the parent of `dest`; restart and stop always act
      on the source, never on `dest`. */
  function ExecRaise(templates: map<Address, Template>, r: Raise): (next: Option<NextOp>)
    ensures r.dest !in templates ==> next.None?
    ensures next.Some? && next.value.Escalate? ==>
              next.value.next == Raise(r.error, r.src, GetParent(r.dest))
    ensures next.Some? && !next.value.Escalate? ==> next.value.target == r.src
  {
    if r.dest !in templates then None
    else
      match templates[r.dest].trap
      case None => Some(Escalate(Raise(r.error, r.src, GetParent(r.dest))))
      case Some(trap) =>
        match trap(r.error)
        case ActionRaise => Some(Escalate(Raise(r.error, r.src, GetParent(r.dest))))
        case ActionIgnore => None
        case ActionRestart => Some(Restart(r.src))
        case ActionStop => Some(Stop(r.src))
        case ActionUnknown(_) => None
  }

  /** The decision table of one step, one line per trap result. */
  lemma ExecRaiseCases(templates: map<Address, Template>, r: Raise)
    requires r.dest in templates
    ensures templates[r.dest].trap.None? ==>
              ExecRaise(templates, r) == Some(Escalate(Raise(r.error, r.src, GetParent(r.dest))))
    ensures templates[r.dest].trap.Some? ==>
              var action := templates[r.dest].trap.value(r.error);
              && (action == ActionRaise ==>
                    ExecRaise(templates, r) == Some(Escalate(Raise(r.error, r.src, GetParent(r.dest)))))
              && (action == ActionIgnore || action.ActionUnknown? ==> ExecRaise(templates, r) == None)
              && (action == ActionRestart ==> ExecRaise(templates, r) == Some(Restart(r.src)))
              && (action == ActionStop ==> ExecRaise(templates, r) == Some(Stop(r.src)))
  {
  }

  /** Where supervision of one raised error ends. */
  datatype Outcome =
    | Unsupervised(at: Address)            // no template at `at`: nothing happens
    | Ignored(at: Address)                 // the trap at `at` ignored the error
    | Restarted(target: Address, at: Address)
    | Stopped(target: Address, at: Address)
    | Unhandled(error: Err)                // escalated past the root: thrown to the caller

  /** At the root, `execRaise` escalates to the root itself: the root is
      its own parent, so a root without a trap, or whose trap answers RAISE,
      is handed the very same raise again. */
  lemma RootReraises(templates: map<Address, Template>, e: Err, src: Address)
    requires ROOT in templates
    requires templates[ROOT].trap.None? || templates[ROOT].trap.value(e) == ActionRaise
    ensures GetParent(ROOT) == ROOT
    ensures ExecRaise(templates, Raise(e, src, ROOT)) == Some(Escalate(Raise(e, src, ROOT)))
  {
    assert ROOT[|ROOT| - 1] == '/';
  }

  /** Runs `execRaise` step after step, following escalations to the parent.
      An escalation out of the root would only repeat the same raise at the
      root (see `RootReraises`); the walk stops there instead and the error
      is unhandled, thrown back to the caller. */
  function Supervise(templates: map<Address, Template>, r: Raise): Outcome
    decreases Measure(r.dest)
  {
    match ExecRaise(templates, r)
    case None => if r.dest in templates then Ignored(r.dest) else Unsupervised(r.dest)
    case Some(Escalate(next)) =>
      if r.dest == ROOT then Unhandled(r.error)
      else
        ParentCloser(r.dest);
        Supervise(templates, next)
    case Some(Restart(a)) => Restarted(a, r.dest)
    case Some(Stop(a)) => Stopped(a, r.dest)
  }

  /** However far an error escalates: a restart or stop always targets the
      original raiser, an unhandled error is the original error, and a
      decision is taken at the destination or one of its ancestors by a trap
      that was applied to the original error. */
  lemma {:induction false} SupervisionKeepsErrorAndSource(templates: map<Address, Template>, r: Raise)
    ensures Supervise(templates, r).Restarted? ==> Supervise(templates, r).target == r.src
    ensures Supervise(templates, r).Stopped? ==> Supervise(templates, r).target == r.src
    ensures Supervise(templates, r).Unhandled? ==> Supervise(templates, r).error == r.error
    ensures !Supervise(templates, r).Unhandled? ==> InTree(Supervise(templates, r).at, r.dest)
    ensures Supervise(templates, r).Restarted? ==>
              var at := Supervise(templates, r).at;
              at in templates && templates[at].trap.Some? &&
              templates[at].trap.value(r.error) == ActionRestart
    ensures Supervise(templates, r).Stopped? ==>
              var at := Supervise(templates, r).at;
              at in templates && templates[at].trap.Some? &&
              templates[at].trap.value(r.error) == ActionStop
    ensures Supervise(templates, r).Ignored? ==>
              var at := Supervise(templates, r).at;
              at in templates && templates[at].trap.Some? &&
              (templates[at].trap.value(r.error) == ActionIgnore ||
               templates[at].trap.value(r.error).ActionUnknown?)
    decreases Measure(r.dest)
  {
    match ExecRaise(templates, r)
    case None =>
    case Some(Escalate(next)) =>
      if r.dest != ROOT {
        ParentCloser(r.dest);
        SupervisionKeepsErrorAndSource(templates, next);
        var o := Supervise(templates, next);
        if !o.Unhandled? {
          if o.at == next.dest {
            assert IsAncestor(o.at, r.dest);
          } else {
            assert IsAncestor(o.at, next.dest);
            assert IsAncestor(o.at, r.dest);
          }
        }
      }
    case Some(Restart(a)) =>
    case Some(Stop(a)) =>
  }

  /** When the destination and all its ancestors have templates without a
      trap, the error escalates through every one of them and ends up
      unhandled at the root. */
  lemma {:induction false} TraplessChainIsUnhandled(templates: map<Address, Template>, r: Raise)
    requires forall a :: InTree(a, r.dest) ==> a in templates && templates[a].trap.None?
    ensures Supervise(templates, r) == Unhandled(r.error)
    decreases Measure(r.dest)
  {
    assert InTree(r.dest, r.dest);
    if r.dest != ROOT {
      ParentCloser(r.dest);
      var p := GetParent(r.dest);
      forall a | InTree(a, p)
        ensures a in templates && templates[a].trap.None?
      {
        assert IsAncestor(a, r.dest);
      }
      TraplessChainIsUnhandled(templates, Raise(r.error, r.src, p));
    }
  }

  /** A raise whose destination has no template ends at once, with nothing
      done. */
  lemma NoTemplateDoesNothing(templates: map<Address, Template>, r: Raise)
    requires r.dest !in templates
    ensures ExecRaise(templates, r).None?
    ensures Supervise(templates, r) == Unsupervised(r.dest)
  {
  }

  /** The template table of the runtime's escalation test: `/foo/bar` and
      `/foo` trap with RAISE; the root's trap ignores the error only if it
      is `e` itself. */
  function EscalationFixture(e: Err): map<Address, Template> {
    map[
      "/" := Template("/", Some((x: Err) => if x == e then ActionIgnore else ActionStop)),
      "/foo" := Template("/foo", Some((x: Err) => ActionRaise)),
      "/foo/bar" := Template("/foo/bar", Some((x: Err) => ActionRaise))]
  }

  /** In that scenario the error escalates twice and the root's trap,
      receiving the very error raised at `/foo/bar`, ignores it. */
  lemma EscalationReachesRootTrap(e: Err)
    ensures Supervise(EscalationFixture(e), Raise(e, "/foo/bar", "/foo/bar")) == Ignored("/")
  {
    var t := EscalationFixture(e);
    SystemAddress.ContainsChar("bar", '/');
    SystemAddress.ContainsChar("foo", '/');
    assert Make("/foo", "bar") == "/foo/bar";
    ParentOfChild("/foo", "bar");
    assert Make("/", "foo") == "/foo";
    ParentOfChild("/", "foo");
    assert Supervise(t, Raise(e, "/foo/bar", "/")) == Ignored("/");
    assert Supervise(t, Raise(e, "/foo/bar", "/foo")) == Supervise(t, Raise(e, "/foo/bar", "/"));
    assert Supervise(t, Raise(e, "/foo/bar", "/foo/bar")) == Supervise(t, Raise(e, "/foo/bar", "/foo"));
  }

  /** An error raised at the root, whose template has no trap, is not
      handled: it is thrown back to the caller. */
  lemma UnhandledAtRoot(e: Err)
    ensures Supervise(map["/" := Template("/", None)], Raise(e, "/", "/")) == Unhandled(e)
  {
  }
}
