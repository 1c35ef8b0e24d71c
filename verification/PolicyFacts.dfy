/** What composing policy layers means, and how the service's own copy of the
  * matcher (casper_service/policy.py) compares with the daemon's. */
module PolicyFacts {
  import opened Prelude
  import opened Policy

  // ---- The order of the layers does not matter ------------------------------------

  lemma {:induction false} InsertKeepsAscending<P>(l: Layer<P>, sorted: seq<Layer<P>>)
    requires Ascending(sorted)
    ensures Ascending(Insert(l, sorted))
  {
    if sorted != [] && l.id > sorted[0].id {
      InsertKeepsAscending(l, sorted[1..]);
      var rest := Insert(l, sorted[1..]);
      forall i | 0 <= i < |rest| ensures sorted[0].id <= rest[i].id {
        assert rest[i] in multiset(sorted[1..]) + multiset{l} by {
          assert rest[i] in multiset(rest);
        }
      }
    }
  }

  lemma {:induction false} SortedAscends<P>(layers: seq<Layer<P>>)
    ensures Ascending(Sorted(layers))
  {
    if layers != [] {
      SortedAscends(layers[1..]);
      InsertKeepsAscending(layers[0], Sorted(layers[1..]));
    }
  }

  /** No two different layers share an id. */
  ghost predicate IdsDiffer<P>(s: multiset<Layer<P>>) {
    forall k, l :: k in s && l in s && k.id == l.id ==> k == l
  }

  lemma FirstIsLowest<P>(s: seq<Layer<P>>, l: Layer<P>)
    requires Ascending(s) && l in multiset(s)
    ensures s != [] && s[0].id <= l.id
  {
    var i :| 0 <= i < |s| && s[i] == l;
  }

  lemma WithoutFirst<P>(s: seq<Layer<P>>)
    requires s != []
    ensures multiset(s[1..]) == multiset(s) - multiset{s[0]} && s[0] in multiset(s)
  {
    assert s == [s[0]] + s[1..];
  }

  lemma FirstsAgree<P>(s: seq<Layer<P>>, t: seq<Layer<P>>)
    requires Ascending(s) && Ascending(t) && multiset(s) == multiset(t)
    requires IdsDiffer(multiset(s)) && s != []
    ensures t != [] && s[0] == t[0]
    ensures multiset(s[1..]) == multiset(t[1..]) && IdsDiffer(multiset(s[1..]))
  {
    WithoutFirst(s);
    FirstIsLowest(t, s[0]);
    WithoutFirst(t);
    FirstIsLowest(s, t[0]);
  }

  lemma SameParts<T>(s: seq<T>, t: seq<T>)
    requires s != [] && t != [] && s[0] == t[0] && s[1..] == t[1..]
    ensures s == t
  {
    assert s == [s[0]] + s[1..] && t == [t[0]] + t[1..];
  }

  lemma {:induction false} OneAscendingOrder<P>(s: seq<Layer<P>>, t: seq<Layer<P>>)
    requires Ascending(s) && Ascending(t) && multiset(s) == multiset(t)
    requires IdsDiffer(multiset(s))
    ensures s == t
    decreases |s|
  {
    if s == [] {
      if t != [] {
        WithoutFirst(t);
      }
    } else {
      FirstsAgree(s, t);
      OneAscendingOrder(s[1..], t[1..]);
      SameParts(s, t);
    }
  }

  lemma DistinctIdsDiffer<P>(layers: seq<Layer<P>>)
    requires Distinct(layers)
    ensures IdsDiffer(multiset(layers))
  {
    forall k, l | k in multiset(layers) && l in multiset(layers) && k.id == l.id ensures k == l {
      var i :| 0 <= i < |layers| && layers[i] == k;
      var j :| 0 <= j < |layers| && layers[j] == l;
    }
  }

  /** Any permutation of layers with distinct ids composes to the same policy. */
  lemma OrderDoesNotMatter<P>(layers: seq<Layer<P>>, shuffled: seq<Layer<P>>)
    requires Distinct(layers) && multiset(layers) == multiset(shuffled)
    ensures Compose(layers) == Compose(shuffled)
  {
    SortedAscends(layers);
    SortedAscends(shuffled);
    DistinctIdsDiffer(layers);
    OneAscendingOrder(Sorted(layers), Sorted(shuffled));
  }

  // ---- The lowest layer with a match decides ----------------------------------------

  lemma {:induction false} FirstOfBoth<P>(a: seq<Composed<P>>, b: seq<Composed<P>>, hits: Rule<P> -> bool)
    ensures FirstMatch(a + b, hits) == if FirstMatch(a, hits).Some? then FirstMatch(a, hits) else FirstMatch(b, hits)
  {
    if a == [] {
      assert a + b == b;
    } else {
      assert (a + b)[1..] == a[1..] + b;
      FirstOfBoth(a[1..], b, hits);
    }
  }

  /** A layer's own first match. */
  function OwnMatch<P>(l: Layer<P>, hits: Rule<P> -> bool): Option<Composed<P>> {
    FirstMatch(Tagged(l), hits)
  }

  /** r is the first hit of the layer with the lowest id among those with a hit. */
  ghost predicate LowestDecides<P(!new)>(layers: multiset<Layer<P>>, hits: Rule<P> -> bool, r: Option<Composed<P>>) {
    if r.None? then forall l :: l in layers ==> OwnMatch(l, hits) == None
    else exists l :: l in layers && OwnMatch(l, hits) == r
                     && forall k :: k in layers && k.id < l.id ==> OwnMatch(k, hits) == None
  }

  lemma {:induction false} AscendingDecides<P(!new)>(sorted: seq<Layer<P>>, hits: Rule<P> -> bool)
    requires Ascending(sorted)
    ensures LowestDecides(multiset(sorted), hits, FirstMatch(Concatenated(sorted), hits))
  {
    if sorted != [] {
      assert sorted == [sorted[0]] + sorted[1..];
      FirstOfBoth(Tagged(sorted[0]), Concatenated(sorted[1..]), hits);
      AscendingDecides(sorted[1..], hits);
      var r := FirstMatch(Concatenated(sorted), hits);
      if OwnMatch(sorted[0], hits).Some? {
        assert sorted[0] in multiset(sorted);
        forall k | k in multiset(sorted) ensures k.id >= sorted[0].id {
          var i :| 0 <= i < |sorted| && sorted[i] == k;
        }
      } else if r.Some? {
        var l :| l in multiset(sorted[1..]) && OwnMatch(l, hits) == r
                 && forall k :: k in multiset(sorted[1..]) && k.id < l.id ==> OwnMatch(k, hits) == None;
        assert l in multiset(sorted);
      }
    }
  }

  lemma LowestLayerDecides<P(!new)>(layers: seq<Layer<P>>, hits: Rule<P> -> bool)
    ensures LowestDecides(multiset(layers), hits, FirstMatch(Compose(layers), hits))
  {
    SortedAscends(layers);
    AscendingDecides(Sorted(layers), hits);
  }

  // ---- Adding a layer ------------------------------------------------------------------

  lemma {:induction false} InsertBeforeLast<P>(l: Layer<P>, sorted: seq<Layer<P>>, last: Layer<P>)
    requires l.id < last.id
    ensures Insert(l, sorted + [last]) == Insert(l, sorted) + [last]
  {
    if sorted == [] {
      assert sorted + [last] == [last];
      assert [l] + [last] == [l, last];
    } else {
      assert (sorted + [last])[1..] == sorted[1..] + [last];
      InsertBeforeLast(l, sorted[1..], last);
      if l.id <= sorted[0].id {
        assert [l] + (sorted + [last]) == [l] + sorted + [last];
      }
    }
  }

  lemma {:induction false} SortsLast<P>(layers: seq<Layer<P>>, last: Layer<P>)
    requires forall l :: l in layers ==> l.id < last.id
    ensures Sorted(layers + [last]) == Sorted(layers) + [last]
  {
    if layers == [] {
      assert layers + [last] == [last];
      assert [last][1..] == [];
    } else {
      assert (layers + [last])[1..] == layers[1..] + [last];
      SortsLast(layers[1..], last);
      InsertBeforeLast(layers[0], Sorted(layers[1..]), last);
    }
  }

  lemma {:induction false} ConcatenatedAppend<P>(layers: seq<Layer<P>>, last: Layer<P>)
    ensures Concatenated(layers + [last]) == Concatenated(layers) + Tagged(last)
  {
    if layers == [] {
      assert layers + [last] == [last] && [last][1..] == [];
    } else {
      assert (layers + [last])[1..] == layers[1..] + [last];
      ConcatenatedAppend(layers[1..], last);
    }
  }

  /** A layer above all others decides exactly the calls that hit terminal deny. */
  lemma HigherLayerOnlyFillsGaps<P>(layers: seq<Layer<P>>, added: Layer<P>, hits: Rule<P> -> bool)
    requires forall l :: l in layers ==> l.id < added.id
    ensures var before := FirstMatch(Compose(layers), hits);
            var after := FirstMatch(Compose(layers + [added]), hits);
            after == if before.Some? then before else OwnMatch(added, hits)
  {
    SortsLast(layers, added);
    ConcatenatedAppend(Sorted(layers), added);
    FirstOfBoth(Concatenated(Sorted(layers)), Tagged(added), hits);
  }

  // ---- Running, asking and evaluating -----------------------------------------------------

  /** Whenever run_shell_command decides, eval_policy over the same layers and
    * directory gives the same verdict, whatever the approval. */
  lemma EvalAgreesWithRun(m: Machine, homeRoot: string, layers: seq<Layer<Pattern>>, req: Request, hypothetical: Request)
    requires hypothetical.positional == req.positional && hypothetical.options == req.options
    requires RunReply(m, homeRoot, layers, req).Decided?
    ensures EvalReply(m, layers, hypothetical, RunReply(m, homeRoot, layers, req).dir) == RunReply(m, homeRoot, layers, req)
  {
  }

  lemma OneDecision<P(!new)>(layers: multiset<Layer<P>>, hits: Rule<P> -> bool, r: Option<Composed<P>>, q: Option<Composed<P>>)
    requires IdsDiffer(layers) && LowestDecides(layers, hits, r) && LowestDecides(layers, hits, q)
    ensures r == q
  {
    if r.Some? && q.Some? {
      var k :| k in layers && OwnMatch(k, hits) == r
               && forall j :: j in layers && j.id < k.id ==> OwnMatch(j, hits) == None;
      var l :| l in layers && OwnMatch(l, hits) == q
               && forall j :: j in layers && j.id < l.id ==> OwnMatch(j, hits) == None;
      assert !(k.id < l.id) && !(l.id < k.id);
    }
  }

  /** A resent call is decided by the layers of that moment alone: by the lowest
    * layer that matches it then, so an approval never runs a call that is denied
    * by then. */
  lemma ResendIsDecidedAfresh(m: Machine, homeRoot: string, now: seq<Layer<Pattern>>, req: Request, call: Call,
                              r: Option<Composed<Pattern>>)
    requires Distinct(now)
    requires RunReply(m, homeRoot, now, req).Decided?
    requires call == Call([m.lookPath(req.positional[0]).value] + req.positional[1..], req.options,
                          RunReply(m, homeRoot, now, req).dir)
    requires LowestDecides(multiset(now), Hits(m, call), r)
    ensures RunReply(m, homeRoot, now, req).verdict == Judged(r)
    ensures Executes(RunReply(m, homeRoot, now, req).verdict.tier, req.approved) <==>
            r.Some? && r.value.rule.tier != Deny && (r.value.rule.tier == Ask ==> req.approved)
  {
    LowestLayerDecides(now, Hits(m, call));
    DistinctIdsDiffer(now);
    OneDecision(multiset(now), Hits(m, call), r, Choice(m, now, call));
  }

  // ---- What runs is what was matched ---------------------------------------------------

  /** o goes by this short or this long name; a blank name names nothing. */
  predicate CalledBy(o: CallOption, short: string, long: string) {
    (o.short == short && |short| > 0) || (o.long == long && |long| > 0)
  }

  /** The k-th option is the first that goes by either name. */
  ghost predicate FirstNamed(options: seq<CallOption>, k: nat, short: string, long: string) {
    k < |options| && CalledBy(options[k], short, long) && forall j :: 0 <= j < k ==> !CalledBy(options[j], short, long)
  }

  /** No list is violated by value. */
  predicate Permits(m: Machine, value: string, p: Pattern) {
    !(p.whitelist.Some? && !m.matches(p.whitelist.value, value)) && !(p.blacklist.Some? && m.matches(p.blacklist.value, value))
  }

  /** value, or what it resolves to for a pattern that resolves, is permitted. */
  ghost predicate Passes(m: Machine, value: string, p: Pattern, cwd: string) {
    match p.resolution
    case Raw => Permits(m, value, p)
    case Unrecognized(_) => Permits(m, value, p)
    case _ =>
      (p.whitelist.None? && p.blacklist.None?) || exists r :: m.resolve(p.resolution, value, cwd) == Some(r) && Permits(m, r, p)
  }

  lemma {:induction false} FoundIsFirst(options: seq<CallOption>, short: string, long: string)
    ensures forall k: nat :: FirstNamed(options, k, short, long) ==> FindOption(options, short, long) == Some(options[k])
    ensures FindOption(options, short, long).Some? ==> exists k: nat :: FirstNamed(options, k, short, long)
  {
    if options != [] {
      var rest := options[1..];
      FoundIsFirst(rest, short, long);
      if CalledBy(options[0], short, long) {
        assert FirstNamed(options, 0, short, long);
      } else {
        forall k: nat | FirstNamed(options, k, short, long) ensures k > 0 && FirstNamed(rest, k - 1, short, long) {
          assert forall j :: 0 <= j < k - 1 ==> rest[j] == options[j + 1];
        }
        if FindOption(rest, short, long).Some? {
          var k: nat :| FirstNamed(rest, k, short, long);
          assert forall j :: 0 < j <= k ==> options[j] == rest[j - 1];
          assert FirstNamed(options, k + 1, short, long);
        }
      }
    }
  }

  lemma PassesIff(m: Machine, value: string, p: Pattern, cwd: string)
    ensures ResolvedMatch(m, value, p, cwd) <==> Passes(m, value, p, cwd)
  {
  }

  /** The call has the constrained option, and its value (blank if it has none) passes. */
  ghost predicate Supplies(m: Machine, call: Call, oc: OptionConstraint<Pattern>) {
    exists k: nat ::
      && FirstNamed(call.options, k, oc.short, oc.long)
      && Passes(m, if call.options[k].value.Some? then call.options[k].value.value else "", oc.pattern, call.cwd)
  }

  lemma OptionHoldsIff(m: Machine, oc: OptionConstraint<Pattern>, call: Call)
    ensures OptionHolds(m, oc, call) <==> Supplies(m, call, oc)
  {
    FoundIsFirst(call.options, oc.short, oc.long);
    if OptionHolds(m, oc, call) {
      var k: nat :| FirstNamed(call.options, k, oc.short, oc.long);
      PassesIff(m, ValueOf(call.options[k]), oc.pattern, call.cwd);
    }
    if Supplies(m, call, oc) {
      var k: nat :| FirstNamed(call.options, k, oc.short, oc.long)
                    && Passes(m, if call.options[k].value.Some? then call.options[k].value.value else "", oc.pattern, call.cwd);
      PassesIff(m, ValueOf(call.options[k]), oc.pattern, call.cwd);
    }
  }

  /** A rule matches exactly when the directory, as it stands, every constrained
    * position (blank where the call has none), and the first option of each
    * constrained name pass. */
  lemma MatchMeans(m: Machine, r: Rule<Pattern>, call: Call)
    ensures RuleMatches(m, r, call)
            <==> && Permits(m, call.cwd, r.cwd)
                 && (forall i :: 0 <= i < |r.positional| ==>
                       Passes(m, if i < |call.args| then call.args[i] else "", r.positional[i], call.cwd))
                 && (forall i :: 0 <= i < |r.options| ==> Supplies(m, call, r.options[i]))
  {
    forall i | 0 <= i < |r.positional|
      ensures ResolvedMatch(m, ArgAt(call.args, i), r.positional[i], call.cwd)
              <==> Passes(m, if i < |call.args| then call.args[i] else "", r.positional[i], call.cwd)
    {
      PassesIff(m, ArgAt(call.args, i), r.positional[i], call.cwd);
    }
    forall i | 0 <= i < |r.options|
      ensures OptionHolds(m, r.options[i], call) <==> Supplies(m, call, r.options[i])
    {
      OptionHoldsIff(m, r.options[i], call);
    }
  }

  /** The first rule of a layer that matches, as the policy reports it. */
  ghost predicate FirstHit(m: Machine, l: Layer<Pattern>, call: Call, k: nat) {
    k < |l.rules| && RuleMatches(m, l.rules[k], call) && forall j :: 0 <= j < k ==> !RuleMatches(m, l.rules[j], call)
  }

  ghost predicate NoHit(m: Machine, l: Layer<Pattern>, call: Call) {
    forall j :: 0 <= j < |l.rules| ==> !RuleMatches(m, l.rules[j], call)
  }

  lemma {:induction false} FirstMatchIs(rules: seq<Composed<Pattern>>, m: Machine, call: Call)
    ensures var r := FirstMatch(rules, Hits(m, call));
            if r.None? then forall j :: 0 <= j < |rules| ==> !RuleMatches(m, rules[j].rule, call)
            else exists k :: 0 <= k < |rules| && r == Some(rules[k]) && RuleMatches(m, rules[k].rule, call)
                   && forall j :: 0 <= j < k ==> !RuleMatches(m, rules[j].rule, call)
  {
    if rules != [] {
      FirstMatchIs(rules[1..], m, call);
      if !RuleMatches(m, rules[0].rule, call) {
        var r := FirstMatch(rules[1..], Hits(m, call));
        if r.Some? {
          var k :| 0 <= k < |rules[1..]| && r == Some(rules[1..][k]) && RuleMatches(m, rules[1..][k].rule, call)
                   && forall j :: 0 <= j < k ==> !RuleMatches(m, rules[1..][j].rule, call);
          assert forall j :: 0 < j <= k + 1 ==> rules[j] == rules[1..][j - 1];
          assert r == Some(rules[k + 1]);
        }
      }
    }
  }

  lemma OwnMatchIs(m: Machine, l: Layer<Pattern>, call: Call)
    ensures OwnMatch(l, Hits(m, call)) == None <==> NoHit(m, l, call)
    ensures OwnMatch(l, Hits(m, call)).Some? ==>
              exists k: nat :: FirstHit(m, l, call, k) && OwnMatch(l, Hits(m, call)) == Some(Composed(l.id, l.rules[k]))
  {
    FirstMatchIs(Tagged(l), m, call);
    assert forall j :: 0 <= j < |l.rules| ==> Tagged(l)[j] == Composed(l.id, l.rules[j]);
    if OwnMatch(l, Hits(m, call)).Some? {
      var k :| 0 <= k < |Tagged(l)| && OwnMatch(l, Hits(m, call)) == Some(Tagged(l)[k]) && RuleMatches(m, Tagged(l)[k].rule, call)
               && forall j :: 0 <= j < k ==> !RuleMatches(m, Tagged(l)[j].rule, call);
      assert FirstHit(m, l, call, k);
    }
  }

  /** v is what the layers say of a call: the tier and ids of the first matching
    * rule of the lowest layer that has one, or deny if none has. */
  ghost predicate Rules(m: Machine, layers: seq<Layer<Pattern>>, call: Call, v: Verdict) {
    || (v == Verdict(Deny, 0, 0) && forall l :: l in layers ==> NoHit(m, l, call))
    || (exists l, k: nat :: l in layers && FirstHit(m, l, call, k) && v == Verdict(l.rules[k].tier, l.id, l.rules[k].id)
          && forall lower :: lower in layers && lower.id < l.id ==> NoHit(m, lower, call))
  }

  /** Layer l's own choice decides. */
  lemma LayerRules(m: Machine, layers: seq<Layer<Pattern>>, call: Call, l: Layer<Pattern>)
    requires l in layers && OwnMatch(l, Hits(m, call)).Some?
    requires forall k :: k in layers && k.id < l.id ==> OwnMatch(k, Hits(m, call)) == None
    ensures Rules(m, layers, call, Judged(OwnMatch(l, Hits(m, call))))
  {
    OwnMatchIs(m, l, call);
    forall lower | lower in layers && lower.id < l.id ensures NoHit(m, lower, call) {
      OwnMatchIs(m, lower, call);
    }
  }

  lemma VerdictIs(m: Machine, layers: seq<Layer<Pattern>>, call: Call)
    ensures Rules(m, layers, call, Judged(Choice(m, layers, call)))
  {
    var r := Choice(m, layers, call);
    LowestLayerDecides(layers, Hits(m, call));
    assert forall l :: l in layers <==> l in multiset(layers);
    if r.None? {
      forall l | l in layers ensures NoHit(m, l, call) {
        OwnMatchIs(m, l, call);
      }
    } else {
      var l :| l in multiset(layers) && OwnMatch(l, Hits(m, call)) == r
               && forall k :: k in multiset(layers) && k.id < l.id ==> OwnMatch(k, Hits(m, call)) == None;
      LayerRules(m, layers, call, l);
    }
  }

  /** What run_shell_command answers, and about which call: the binary found on
    * the path, the request's other words, and the directory asked for. */
  lemma RunAnswers(m: Machine, homeRoot: string, layers: seq<Layer<Pattern>>, req: Request)
    ensures var reply := RunReply(m, homeRoot, layers, req);
            && (reply == NoBinary <==> |req.positional| == 0)
            && (reply == NotConfigured <==> |req.positional| > 0 && homeRoot == "")
            && (reply == BadPath <==> |req.positional| > 0 && homeRoot != "" && req.path != "" && m.directory(homeRoot, req.path) == None)
            && (reply.Decided? <==> && |req.positional| > 0 && homeRoot != "" && m.lookPath(req.positional[0]).Some?
                                    && (req.path == "" || m.directory(homeRoot, req.path).Some?))
            && (reply.Decided? ==>
                  && (req.path == "" ==> reply.dir == homeRoot)
                  && (req.path != "" ==> m.directory(homeRoot, req.path) == Some(reply.dir))
                  && Rules(m, layers, Call([m.lookPath(req.positional[0]).value] + req.positional[1..], req.options, reply.dir), reply.verdict))
  {
    var reply := RunReply(m, homeRoot, layers, req);
    if reply.Decided? {
      VerdictIs(m, layers, Call([m.lookPath(req.positional[0]).value] + req.positional[1..], req.options, reply.dir));
    }
  }

  /** What eval_policy answers about a hypothetical call: a binary that is not on
    * the path is matched by its bare name. */
  lemma EvalAnswers(m: Machine, layers: seq<Layer<Pattern>>, req: Request, cwd: string)
    ensures var reply := EvalReply(m, layers, req, cwd);
            && (reply == NoBinary <==> |req.positional| == 0)
            && (|req.positional| > 0 ==>
                  && reply.Decided? && reply.dir == cwd
                  && (m.lookPath(req.positional[0]) == None ==>
                        Rules(m, layers, Call(req.positional, req.options, cwd), reply.verdict))
                  && (m.lookPath(req.positional[0]).Some? ==>
                        Rules(m, layers, Call(req.positional[0 := m.lookPath(req.positional[0]).value], req.options, cwd), reply.verdict)))
  {
    if |req.positional| > 0 {
      var found := m.lookPath(req.positional[0]);
      var binary := if found.Some? then found.value else req.positional[0];
      assert [binary] + req.positional[1..] == req.positional[0 := binary];
      assert found.None? ==> req.positional[0 := binary] == req.positional;
      VerdictIs(m, layers, Call(req.positional[0 := binary], req.options, cwd));
    }
  }

  // ---- The service's matcher -------------------------------------------------------------------

  /** The service's pattern: texts that are never absent. */
  datatype TextPattern = TextPattern(whitelist: Regex, blacklist: Regex, resolution: Resolution)

  /** What the daemon makes of a pattern it receives: both texts become regexes. */
  function Compiled(p: TextPattern): Pattern {
    Pattern(Some(p.whitelist), Some(p.blacklist), p.resolution)
  }

  function CompiledOption(o: OptionConstraint<TextPattern>): OptionConstraint<Pattern> {
    OptionConstraint(o.short, o.long, Compiled(o.pattern))
  }

  function CompiledRule(r: Rule<TextPattern>): Rule<Pattern> {
    Rule(r.id, seq(|r.positional|, i requires 0 <= i < |r.positional| => Compiled(r.positional[i])),
         seq(|r.options|, i requires 0 <= i < |r.options| => CompiledOption(r.options[i])), Compiled(r.cwd), r.tier)
  }

  function CompiledLayer(l: Layer<TextPattern>): Layer<Pattern> {
    Layer(l.id, seq(|l.rules|, i requires 0 <= i < |l.rules| => CompiledRule(l.rules[i])))
  }

  function CompiledLayers(layers: seq<Layer<TextPattern>>): seq<Layer<Pattern>> {
    seq(|layers|, i requires 0 <= i < |layers| => CompiledLayer(layers[i]))
  }

  function TrimSlashes(s: string): string {
    if s != "" && s[|s| - 1] == '/' then TrimSlashes(s[..|s| - 1]) else s
  }

  /** The service's guess at a "." resolution; other modes stay raw. */
  function Approximated(value: string, resolution: Resolution, cwd: string): string {
    if resolution == Dot && value != "" && value[0] != '/' && cwd != "" then TrimSlashes(cwd) + "/" + value else value
  }

  /** An empty text is skipped, on either list. */
  predicate TextMatch(m: Machine, value: string, p: TextPattern, cwd: string) {
    var v := Approximated(value, p.resolution, cwd);
    && (p.whitelist != "" ==> m.matches(p.whitelist, v))
    && (p.blacklist != "" ==> !m.matches(p.blacklist, v))
  }

  predicate TextOptionHolds(m: Machine, oc: OptionConstraint<TextPattern>, call: Call) {
    var found := FindOption(call.options, oc.short, oc.long);
    found.Some? && TextMatch(m, ValueOf(found.value), oc.pattern, call.cwd)
  }

  predicate TextRuleMatches(m: Machine, r: Rule<TextPattern>, call: Call) {
    && TextMatch(m, call.cwd, r.cwd, "")
    && (forall i :: 0 <= i < |r.positional| ==> TextMatch(m, ArgAt(call.args, i), r.positional[i], call.cwd))
    && (forall i :: 0 <= i < |r.options| ==> TextOptionHolds(m, r.options[i], call))
  }

  function TextHits(m: Machine, call: Call): Rule<TextPattern> -> bool {
    rule => TextRuleMatches(m, rule, call)
  }

  /** match_policy over compose_policy. */
  method MatchPolicy(m: Machine, layers: seq<Layer<TextPattern>>, call: Call) returns (r: Option<Composed<TextPattern>>)
    ensures LowestDecides(multiset(layers), TextHits(m, call), r)
    ensures r == FirstMatch(Compose(layers), TextHits(m, call))
  {
    LowestLayerDecides(layers, TextHits(m, call));
    var rules := ComposePolicy(layers);
    assert rules[0..] == rules;
    for i := 0 to |rules|
      invariant FirstMatch(Compose(layers), TextHits(m, call)) == FirstMatch(rules[i..], TextHits(m, call))
    {
      assert rules[i..][0] == rules[i] && rules[i..][1..] == rules[i + 1..];
      if TextRuleMatches(m, rules[i].rule, call) {
        return Some(rules[i]);
      }
    }
    r := None;
  }

  lemma {:induction false} TrimmedIs(s: string)
    ensures TrimSlashes(s) <= s && (TrimSlashes(s) == "" || TrimSlashes(s)[|TrimSlashes(s)| - 1] != '/')
    ensures forall i :: |TrimSlashes(s)| <= i < |s| ==> s[i] == '/'
  {
    if s != "" && s[|s| - 1] == '/' {
      TrimmedIs(s[..|s| - 1]);
    }
  }

  /** The service joins a relative value to the directory, whose trailing slashes
    * (and nothing else) it drops; any other value it takes as it is. */
  lemma ServiceJoins(m: Machine, value: string, p: TextPattern, cwd: string) returns (base: string)
    ensures base <= cwd && (base == "" || base[|base| - 1] != '/') && forall i :: |base| <= i < |cwd| ==> cwd[i] == '/'
    ensures var text := if p.resolution == Dot && |value| > 0 && value[0] != '/' && cwd != "" then base + "/" + value else value;
            TextMatch(m, value, p, cwd)
            <==> (p.whitelist == "" || m.matches(p.whitelist, text)) && (p.blacklist == "" || !m.matches(p.blacklist, text))
  {
    TrimmedIs(cwd);
    base := TrimSlashes(cwd);
  }

  // ---- Where the two matchers agree -----------------------------------------------------------------

  /** RE2: the empty pattern matches everything. */
  ghost predicate EmptyMatchesAll(m: Machine) {
    forall v :: m.matches("", v)
  }

  predicate Unresolved(p: TextPattern) {
    p.resolution.Raw? || p.resolution.Unrecognized?
  }

  /** No positional or option pattern asks for resolution; the directory's never is resolved. */
  predicate NothingResolved(r: Rule<TextPattern>) {
    && (forall i :: 0 <= i < |r.positional| ==> Unresolved(r.positional[i]))
    && (forall i :: 0 <= i < |r.options| ==> Unresolved(r.options[i].pattern))
  }

  predicate NoEmptyBlacklist(r: Rule<TextPattern>) {
    && r.cwd.blacklist != ""
    && (forall i :: 0 <= i < |r.positional| ==> r.positional[i].blacklist != "")
    && (forall i :: 0 <= i < |r.options| ==> r.options[i].pattern.blacklist != "")
  }

  /** On one value the matchers agree unless the blacklist is empty and the
    * whitelist lets the value through: the daemon then refuses everything. */
  lemma PatternsAgreeIff(m: Machine, value: string, p: TextPattern, cwd: string)
    requires EmptyMatchesAll(m) && Unresolved(p)
    ensures TextMatch(m, value, p, cwd) == ResolvedMatch(m, value, Compiled(p), cwd)
            <==> p.blacklist != "" || !m.matches(p.whitelist, value)
    ensures ResolvedMatch(m, value, Compiled(p), cwd) <==> TextMatch(m, value, p, cwd) && p.blacklist != ""
  {
    assert m.matches("", value);
  }

  lemma DirectoriesAgree(m: Machine, cwd: string, p: TextPattern)
    requires EmptyMatchesAll(m)
    ensures RawMatch(m, cwd, Compiled(p)) <==> TextMatch(m, cwd, p, "") && p.blacklist != ""
  {
    assert m.matches("", cwd);
  }

  /** The daemon matches a rule exactly when the service does and no blacklist in it is empty. */
  lemma DaemonMatchesIff(m: Machine, r: Rule<TextPattern>, call: Call)
    requires EmptyMatchesAll(m) && NothingResolved(r)
    ensures RuleMatches(m, CompiledRule(r), call) <==> TextRuleMatches(m, r, call) && NoEmptyBlacklist(r)
  {
    var c := CompiledRule(r);
    DirectoriesAgree(m, call.cwd, r.cwd);
    forall i | 0 <= i < |r.positional|
      ensures ResolvedMatch(m, ArgAt(call.args, i), c.positional[i], call.cwd)
              <==> TextMatch(m, ArgAt(call.args, i), r.positional[i], call.cwd) && r.positional[i].blacklist != ""
    {
      PatternsAgreeIff(m, ArgAt(call.args, i), r.positional[i], call.cwd);
    }
    forall i | 0 <= i < |r.options|
      ensures OptionHolds(m, c.options[i], call)
              <==> TextOptionHolds(m, r.options[i], call) && r.options[i].pattern.blacklist != ""
    {
      var found := FindOption(call.options, r.options[i].short, r.options[i].long);
      if found.Some? {
        PatternsAgreeIff(m, ValueOf(found.value), r.options[i].pattern, call.cwd);
      }
    }
  }

  function CompiledRules(rules: seq<Composed<TextPattern>>): seq<Composed<Pattern>> {
    seq(|rules|, i requires 0 <= i < |rules| => Composed(rules[i].layerId, CompiledRule(rules[i].rule)))
  }

  function CompiledChoice(c: Option<Composed<TextPattern>>): Option<Composed<Pattern>> {
    if c.None? then None else Some(Composed(c.value.layerId, CompiledRule(c.value.rule)))
  }

  lemma CompiledCons(l: Layer<TextPattern>, layers: seq<Layer<TextPattern>>)
    ensures CompiledLayers([l] + layers) == [CompiledLayer(l)] + CompiledLayers(layers)
  {
  }

  lemma {:induction false} InsertCompiled(l: Layer<TextPattern>, sorted: seq<Layer<TextPattern>>)
    ensures Insert(CompiledLayer(l), CompiledLayers(sorted)) == CompiledLayers(Insert(l, sorted))
  {
    CompiledCons(l, sorted);
    if sorted == [] {
      assert [l] + sorted == [l];
    } else {
      assert sorted == [sorted[0]] + sorted[1..];
      CompiledCons(sorted[0], sorted[1..]);
      assert CompiledLayers(sorted)[1..] == CompiledLayers(sorted[1..]);
      InsertCompiled(l, sorted[1..]);
      CompiledCons(sorted[0], Insert(l, sorted[1..]));
    }
  }

  lemma {:induction false} SortedCompiled(layers: seq<Layer<TextPattern>>)
    ensures Sorted(CompiledLayers(layers)) == CompiledLayers(Sorted(layers))
  {
    if layers != [] {
      assert CompiledLayers(layers)[1..] == CompiledLayers(layers[1..]);
      SortedCompiled(layers[1..]);
      InsertCompiled(layers[0], Sorted(layers[1..]));
    }
  }

  lemma {:induction false} ConcatenatedCompiled(layers: seq<Layer<TextPattern>>)
    ensures Concatenated(CompiledLayers(layers)) == CompiledRules(Concatenated(layers))
  {
    if layers != [] {
      assert CompiledLayers(layers)[1..] == CompiledLayers(layers[1..]);
      ConcatenatedCompiled(layers[1..]);
      assert Tagged(CompiledLayer(layers[0])) == CompiledRules(Tagged(layers[0]));
    }
  }

  lemma {:induction false} FirstMatchHits<P>(rules: seq<Composed<P>>, hits: Rule<P> -> bool)
    ensures var r := FirstMatch(rules, hits); r.Some? ==> hits(r.value.rule)
  {
    if rules != [] {
      FirstMatchHits(rules[1..], hits);
    }
  }

  lemma {:induction false} ChoicesAgreeIff(m: Machine, rules: seq<Composed<TextPattern>>, call: Call)
    requires EmptyMatchesAll(m) && forall c :: c in rules ==> NothingResolved(c.rule)
    ensures var service := FirstMatch(rules, TextHits(m, call));
            FirstMatch(CompiledRules(rules), Hits(m, call)) == CompiledChoice(service)
            <==> service.None? || NoEmptyBlacklist(service.value.rule)
  {
    if rules != [] {
      var compiled := CompiledRules(rules);
      assert compiled[1..] == CompiledRules(rules[1..]);
      DaemonMatchesIff(m, rules[0].rule, call);
      ChoicesAgreeIff(m, rules[1..], call);
      FirstMatchHits(compiled[1..], Hits(m, call));
    }
  }

  lemma {:induction false} ConcatenatedHas<P>(layers: seq<Layer<P>>, c: Composed<P>)
    requires c in Concatenated(layers)
    ensures exists l :: l in layers && c.rule in l.rules
  {
    if c in Tagged(layers[0]) {
      assert layers[0] in layers;
    } else {
      ConcatenatedHas(layers[1..], c);
    }
  }

  /** With no path resolution anywhere, the daemon chooses the very rule the
    * service chooses exactly when that rule has no empty blacklist; where the
    * service finds none, neither does the daemon. */
  lemma MatchersAgreeIff(m: Machine, layers: seq<Layer<TextPattern>>, call: Call)
    requires EmptyMatchesAll(m)
    requires forall l, r :: l in layers && r in l.rules ==> NothingResolved(r)
    ensures var service := FirstMatch(Compose(layers), TextHits(m, call));
            Choice(m, CompiledLayers(layers), call) == CompiledChoice(service)
            <==> service.None? || NoEmptyBlacklist(service.value.rule)
  {
    SortedCompiled(layers);
    ConcatenatedCompiled(Sorted(layers));
    forall c | c in Compose(layers) ensures NothingResolved(c.rule) {
      ConcatenatedHas(Sorted(layers), c);
      var l :| l in Sorted(layers) && c.rule in l.rules;
      assert l in multiset(layers);
    }
    ChoicesAgreeIff(m, Compose(layers), call);
  }

  /** Where they choose the same rule they say the same: its tier, its id, its layer's. */
  lemma SameRuleSameVerdict(m: Machine, layers: seq<Layer<TextPattern>>, call: Call)
    ensures var service := FirstMatch(Compose(layers), TextHits(m, call));
            Choice(m, CompiledLayers(layers), call) == CompiledChoice(service) ==>
              Judged(Choice(m, CompiledLayers(layers), call))
              == if service.None? then Verdict(Deny, 0, 0)
                 else Verdict(service.value.rule.tier, service.value.layerId, service.value.rule.id)
  {
    CompiledSaysTheSame(FirstMatch(Compose(layers), TextHits(m, call)));
  }

  lemma CompiledSaysTheSame(c: Option<Composed<TextPattern>>)
    ensures Judged(CompiledChoice(c))
            == if c.None? then Verdict(Deny, 0, 0) else Verdict(c.value.rule.tier, c.value.layerId, c.value.rule.id)
  {
  }

  lemma ConcatenatedOne<P>(l: Layer<P>)
    ensures Concatenated([l]) == Tagged(l)
  {
    assert [l][1..] == [];
    assert Tagged(l) + [] == Tagged(l);
  }

  /** A policy the service allows and the daemon denies: one unconstrained rule
    * whose directory blacklist is the empty text. */
  lemma EmptyBlacklistDisagrees(m: Machine, call: Call)
    requires EmptyMatchesAll(m)
    ensures var rule := Rule(7, [], [], TextPattern("", "", Raw), Allow);
            && FirstMatch(Compose([Layer(1, [rule])]), TextHits(m, call)) == Some(Composed(1, rule))
            && Judged(Choice(m, CompiledLayers([Layer(1, [rule])]), call)) == Verdict(Deny, 0, 0)
  {
    var rule := Rule(7, [], [], TextPattern("", "", Raw), Allow);
    var layers := [Layer(1, [rule])];
    DaemonMatchesIff(m, rule, call);
    assert TextRuleMatches(m, rule, call);
    assert layers[1..] == [] && Sorted(layers) == layers;
    ConcatenatedOne(layers[0]);
    assert Tagged(layers[0]) == [Composed(1, rule)];
    SortedCompiled(layers);
    ConcatenatedCompiled(layers);
    assert CompiledRules([Composed(1, rule)]) == [Composed(1, CompiledRule(rule))];
  }
}
