/** Selective receive: a `Case` pairs a pattern with a handler, and a list
    of cases is tried in order until one matches (first match wins). The
    pattern test belongs to a foreign library, so it is a parameter. */
module Cases {

  /** A handler is identified by a number; running it is recorded. */
  type HandlerId = nat

  /** A pattern and the handler to run on messages that satisfy it. */
  datatype Case<P> = Case(pattern: P, handler: HandlerId)

  /** One run of a handler on a message. */
  datatype Invocation<M> = Invocation(handler: HandlerId, message: M)

  /** Whether a message matched, and the handler runs it caused. */
  datatype MatchResult<M> = MatchResult(matched: bool, ran: seq<Invocation<M>>)

  /** `Case.match`: runs the handler and reports true exactly when the
      pattern test passes; otherwise runs nothing and reports false. */
  function Match<M, P>(test: (M, P) -> bool, c: Case<P>, m: M): (r: MatchResult<M>)
    ensures r.matched <==> test(m, c.pattern)
    ensures r.ran == if r.matched then [Invocation(c.handler, m)] else []
  {
    if test(m, c.pattern) then MatchResult(true, [Invocation(c.handler, m)])
    else MatchResult(false, [])
  }

  /** Case `k` is the first case whose pattern the message satisfies. */
  ghost predicate FirstMatch<M, P>(test: (M, P) -> bool, cases: seq<Case<P>>, m: M, k: int) {
    0 <= k < |cases| && test(m, cases[k].pattern)
    && forall j :: 0 <= j < k ==> !test(m, cases[j].pattern)
  }

  /** `cases.some(c => c.match(m))`: tries the cases in order and stops at
      the first that matches. Exactly the first matching case's handler
      runs; when none matches, no handler runs. */
  function SomeMatch<M, P>(test: (M, P) -> bool, cases: seq<Case<P>>, m: M): (r: MatchResult<M>)
    ensures r.matched <==> exists k :: 0 <= k < |cases| && test(m, cases[k].pattern)
    ensures r.matched ==> exists k :: FirstMatch(test, cases, m, k)
                                      && r.ran == [Invocation(cases[k].handler, m)]
    ensures !r.matched ==> r.ran == []
  {
    if cases == [] then MatchResult(false, [])
    else
      var head := Match(test, cases[0], m);
      if head.matched then head
      else
        var rest := SomeMatch(test, cases[1..], m);
        assert forall k :: 1 <= k < |cases| ==> cases[k] == cases[1..][k - 1];
        if rest.matched then
          assert exists k :: FirstMatch(test, cases, m, k) && rest.ran == [Invocation(cases[k].handler, m)] by {
            var k :| FirstMatch(test, cases[1..], m, k) && rest.ran == [Invocation(cases[1..][k].handler, m)];
            assert FirstMatch(test, cases, m, k + 1);
          }
          rest
        else rest
  }
}
