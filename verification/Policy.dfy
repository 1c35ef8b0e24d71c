/** The policy matcher, on the daemon (agent/internal/commands/policy.go) and on
  * the service (casper_service/policy.py). */
module Policy {
  import opened Prelude

  type Regex = string

  datatype Resolution = Raw | Dot | OnPath | ManPath | Unrecognized(mode: string)

  /** A daemon-side pattern; an absent list constrains nothing. */
  datatype Pattern = Pattern(whitelist: Option<Regex>, blacklist: Option<Regex>, resolution: Resolution)

  /** Option names are "" when absent, on constraints and on calls. */
  datatype OptionConstraint<P> = OptionConstraint(short: string, long: string, pattern: P)

  datatype Tier = Allow | Ask | Deny | OtherTier(text: string)

  /** P is the pattern form: compiled on the daemon, text on the service. */
  datatype Rule<P> = Rule(id: int, positional: seq<P>, options: seq<OptionConstraint<P>>, cwd: P, tier: Tier)

  datatype Layer<P> = Layer(id: int, rules: seq<Rule<P>>)

  datatype CallOption = CallOption(short: string, long: string, value: Option<string>)

  datatype Call = Call(args: seq<string>, options: seq<CallOption>, cwd: string)

  /** RE2 and the machine's own lookups; directory is resolvePath. */
  datatype Machine = Machine(
    matches: (Regex, string) -> bool,
    resolve: (Resolution, string, string) -> Option<string>,
    lookPath: string -> Option<string>,
    directory: (string, string) -> Option<string>)

  // ---- Matching one rule --------------------------------------------------------

  predicate RawMatch(m: Machine, value: string, p: Pattern) {
    && (p.whitelist.Some? ==> m.matches(p.whitelist.value, value))
    && (p.blacklist.Some? ==> !m.matches(p.blacklist.value, value))
  }

  /** resolveForMatch: an unknown mode changes nothing. */
  function Resolved(m: Machine, value: string, r: Resolution, cwd: string): Option<string> {
    if r.Raw? || r.Unrecognized? then Some(value) else m.resolve(r, value, cwd)
  }

  predicate ResolvedMatch(m: Machine, value: string, p: Pattern, cwd: string) {
    || (p.whitelist.None? && p.blacklist.None?)
    || (var r := Resolved(m, value, p.resolution, cwd); r.Some? && RawMatch(m, r.value, p))
  }

  /** The argument at a position, or "" beyond the last. */
  function ArgAt(args: seq<string>, i: nat): string {
    if i < |args| then args[i] else ""
  }

  predicate Names(o: CallOption, short: string, long: string) {
    (short != "" && o.short == short) || (long != "" && o.long == long)
  }

  function FindOption(options: seq<CallOption>, short: string, long: string): Option<CallOption> {
    if options == [] then None
    else if Names(options[0], short, long) then Some(options[0])
    else FindOption(options[1..], short, long)
  }

  function ValueOf(o: CallOption): string {
    if o.value.Some? then o.value.value else ""
  }

  predicate OptionHolds(m: Machine, oc: OptionConstraint<Pattern>, call: Call) {
    var found := FindOption(call.options, oc.short, oc.long);
    found.Some? && ResolvedMatch(m, ValueOf(found.value), oc.pattern, call.cwd)
  }

  predicate RuleMatches(m: Machine, r: Rule<Pattern>, call: Call) {
    && RawMatch(m, call.cwd, r.cwd)
    && (forall i :: 0 <= i < |r.positional| ==> ResolvedMatch(m, ArgAt(call.args, i), r.positional[i], call.cwd))
    && (forall i :: 0 <= i < |r.options| ==> OptionHolds(m, r.options[i], call))
  }

  // ---- Composing and matching layers -----------------------------------------------

  datatype Composed<P> = Composed(layerId: int, rule: Rule<P>)

  /** The first rule, in order, that hits picks. */
  function FirstMatch<P>(rules: seq<Composed<P>>, hits: Rule<P> -> bool): Option<Composed<P>> {
    if rules == [] then None
    else if hits(rules[0].rule) then Some(rules[0])
    else FirstMatch(rules[1..], hits)
  }

  function Tagged<P>(l: Layer<P>): (r: seq<Composed<P>>)
    ensures |r| == |l.rules|
  {
    seq(|l.rules|, i requires 0 <= i < |l.rules| => Composed(l.id, l.rules[i]))
  }

  function Concatenated<P>(layers: seq<Layer<P>>): seq<Composed<P>> {
    if layers == [] then [] else Tagged(layers[0]) + Concatenated(layers[1..])
  }

  ghost predicate Ascending<P>(layers: seq<Layer<P>>) {
    forall i, j :: 0 <= i < j < |layers| ==> layers[i].id <= layers[j].id
  }

  ghost predicate Distinct<P>(layers: seq<Layer<P>>) {
    forall i, j :: 0 <= i < j < |layers| ==> layers[i].id != layers[j].id
  }

  function Insert<P>(l: Layer<P>, sorted: seq<Layer<P>>): (r: seq<Layer<P>>)
    ensures multiset(r) == multiset(sorted) + multiset{l}
  {
    if sorted == [] then [l]
    else if l.id <= sorted[0].id then [l] + sorted
    else
      assert sorted == [sorted[0]] + sorted[1..];
      [sorted[0]] + Insert(l, sorted[1..])
  }

  function Sorted<P>(layers: seq<Layer<P>>): (r: seq<Layer<P>>)
    ensures multiset(r) == multiset(layers)
  {
    if layers == [] then []
    else
      assert layers == [layers[0]] + layers[1..];
      Insert(layers[0], Sorted(layers[1..]))
  }

  function Compose<P>(layers: seq<Layer<P>>): seq<Composed<P>> {
    Concatenated(Sorted(layers))
  }

  method SortById<P>(layers: seq<Layer<P>>) returns (sorted: seq<Layer<P>>)
    ensures sorted == Sorted(layers)
  {
    sorted := [];
    var i := |layers|;
    assert layers[i..] == [];
    while i > 0
      invariant 0 <= i <= |layers|
      invariant sorted == Sorted(layers[i..])
    {
      i := i - 1;
      assert layers[i..][0] == layers[i] && layers[i..][1..] == layers[i + 1..];
      sorted := Insert(layers[i], sorted);
    }
    assert layers[0..] == layers;
  }

  method Append<P>(rules: seq<Composed<P>>, l: Layer<P>) returns (r: seq<Composed<P>>)
    ensures r == rules + Tagged(l)
  {
    r := rules;
    for j := 0 to |l.rules|
      invariant r == rules + Tagged(l)[..j]
    {
      r := r + [Composed(l.id, l.rules[j])];
      assert Tagged(l)[..j + 1] == Tagged(l)[..j] + [Tagged(l)[j]];
    }
    assert Tagged(l)[..|l.rules|] == Tagged(l);
  }

  /** Sorts a copy of the layers by id and lays their rules end to end. */
  method ComposePolicy<P>(layers: seq<Layer<P>>) returns (rules: seq<Composed<P>>)
    ensures rules == Compose(layers)
  {
    var sorted := SortById(layers);
    rules := [];
    assert sorted[0..] == sorted;
    for k := 0 to |sorted|
      invariant Concatenated(sorted) == rules + Concatenated(sorted[k..])
    {
      assert sorted[k..][0] == sorted[k] && sorted[k..][1..] == sorted[k + 1..];
      ghost var rest := Concatenated(sorted[k + 1..]);
      assert rules + (Tagged(sorted[k]) + rest) == rules + Tagged(sorted[k]) + rest;
      rules := Append(rules, sorted[k]);
    }
    assert rules + [] == rules;
  }

  // ---- Deciding a call ------------------------------------------------------------------

  /** Terminal deny is tier deny with ids 0. */
  datatype Verdict = Verdict(tier: Tier, layerId: int, ruleId: int)

  function Judged(choice: Option<Composed<Pattern>>): Verdict {
    if choice.None? then Verdict(Deny, 0, 0)
    else Verdict(choice.value.rule.tier, choice.value.layerId, choice.value.rule.id)
  }

  function Hits(m: Machine, call: Call): Rule<Pattern> -> bool {
    rule => RuleMatches(m, rule, call)
  }

  /** The composed policy's choice for a call. */
  function Choice(m: Machine, layers: seq<Layer<Pattern>>, call: Call): Option<Composed<Pattern>> {
    FirstMatch(Compose(layers), Hits(m, call))
  }

  /** A tier executes unless it is deny, or ask without an approval on this very request. */
  predicate Executes(tier: Tier, approved: bool) {
    tier != Deny && (tier == Ask ==> approved)
  }

  /** Path "" means the home directory. */
  datatype Request = Request(positional: seq<string>, options: seq<CallOption>, path: string, approved: bool)

  datatype Reply = NoBinary | NotConfigured | BadPath | NotFound | Decided(verdict: Verdict, dir: string)

  datatype Execution = Execution(binary: string, argv: seq<string>, dir: string)

  function Directory(m: Machine, homeRoot: string, path: string): Option<string> {
    if path == "" then Some(homeRoot) else m.directory(homeRoot, path)
  }

  /** What run_shell_command answers. */
  function RunReply(m: Machine, homeRoot: string, layers: seq<Layer<Pattern>>, req: Request): Reply {
    if req.positional == [] then NoBinary
    else if homeRoot == "" then NotConfigured
    else
      var dir := Directory(m, homeRoot, req.path);
      var binary := m.lookPath(req.positional[0]);
      if dir.None? then BadPath
      else if binary.None? then NotFound
      else Decided(Judged(Choice(m, layers, Call([binary.value] + req.positional[1..], req.options, dir.value))), dir.value)
  }

  /** What eval_policy answers; it never executes. */
  function EvalReply(m: Machine, layers: seq<Layer<Pattern>>, req: Request, cwd: string): Reply {
    if req.positional == [] then NoBinary
    else
      var found := m.lookPath(req.positional[0]);
      var binary := if found.Some? then found.value else req.positional[0];
      Decided(Judged(Choice(m, layers, Call([binary] + req.positional[1..], req.options, cwd))), cwd)
  }

  function OptionWords(o: CallOption): seq<string> {
    [if o.long != "" then "--" + o.long else "-" + o.short] + (if o.value.Some? then [o.value.value] else [])
  }

  function Words(options: seq<CallOption>): seq<string> {
    if options == [] then [] else OptionWords(options[0]) + Words(options[1..])
  }

  lemma {:induction false} WordsAppend(a: seq<CallOption>, o: CallOption)
    ensures Words(a + [o]) == Words(a) + OptionWords(o)
  {
    if a != [] {
      assert (a + [o])[1..] == a[1..] + [o];
      WordsAppend(a[1..], o);
    }
  }

  /** words name one option: "--" and its long name, or "-" and its short one if
    * it has no long one, followed by its value if it has one. */
  predicate Renders(words: seq<string>, o: CallOption) {
    && |words| == (if o.value.None? then 1 else 2)
    && (o.long != "" ==> words[0] == "--" + o.long)
    && (o.long == "" ==> words[0] == "-" + o.short)
    && (o.value.Some? ==> words[1] == o.value.value)
  }

  /** argv is one block of words per option, in order, and then extra. */
  ghost predicate Spells(argv: seq<string>, options: seq<CallOption>, extra: seq<string>) {
    exists blocks: seq<seq<string>> ::
      && |blocks| == |options| && argv == Flatten(blocks) + extra
      && forall k :: 0 <= k < |options| ==> Renders(blocks[k], options[k])
  }

  lemma {:induction false} WordsSpell(options: seq<CallOption>) returns (blocks: seq<seq<string>>)
    ensures |blocks| == |options| && Words(options) == Flatten(blocks)
    ensures forall k :: 0 <= k < |options| ==> Renders(blocks[k], options[k])
  {
    if options == [] {
      blocks := [];
    } else {
      var rest := WordsSpell(options[1..]);
      blocks := [OptionWords(options[0])] + rest;
      assert blocks[1..] == rest;
    }
  }

  // ---- The daemon ---------------------------------------------------------------------

  class Handler {
    const machine: Machine
    const homeRoot: string
    var layers: seq<Layer<Pattern>>
    /** The commands it has executed. */
    var ran: seq<Execution>

    constructor (machine: Machine, homeRoot: string)
      ensures this.machine == machine && this.homeRoot == homeRoot && layers == [] && ran == []
    {
      this.machine := machine;
      this.homeRoot := homeRoot;
      layers := [];
      ran := [];
    }

    method SetPolicyLayers(layers: seq<Layer<Pattern>>)
      modifies this`layers
      ensures this.layers == layers
    {
      this.layers := layers;
    }

    method Match(r: Rule<Pattern>, call: Call) returns (ok: bool)
      ensures ok == RuleMatches(machine, r, call)
    {
      if !RawMatch(machine, call.cwd, r.cwd) {
        return false;
      }
      for i := 0 to |r.positional|
        invariant forall k :: 0 <= k < i ==> ResolvedMatch(machine, ArgAt(call.args, k), r.positional[k], call.cwd)
      {
        var value := "";
        if i < |call.args| {
          value := call.args[i];
        }
        if !ResolvedMatch(machine, value, r.positional[i], call.cwd) {
          return false;
        }
      }
      for i := 0 to |r.options|
        invariant forall k :: 0 <= k < i ==> OptionHolds(machine, r.options[k], call)
      {
        var supplied := Find(call.options, r.options[i].short, r.options[i].long);
        if supplied.None? {
          return false;
        }
        var value := "";
        if supplied.value.value.Some? {
          value := supplied.value.value.value;
        }
        if !ResolvedMatch(machine, value, r.options[i].pattern, call.cwd) {
          return false;
        }
      }
      ok := true;
    }

    method Find(options: seq<CallOption>, short: string, long: string) returns (r: Option<CallOption>)
      ensures r == FindOption(options, short, long)
    {
      assert options[0..] == options;
      for i := 0 to |options|
        invariant FindOption(options, short, long) == FindOption(options[i..], short, long)
      {
        if Names(options[i], short, long) {
          return Some(options[i]);
        }
      }
      r := None;
    }

    method MatchPolicy(layers: seq<Layer<Pattern>>, call: Call) returns (r: Option<Composed<Pattern>>)
      ensures r == Choice(machine, layers, call)
    {
      var rules := ComposePolicy(layers);
      assert rules[0..] == rules;
      for i := 0 to |rules|
        invariant Choice(machine, layers, call) == FirstMatch(rules[i..], Hits(machine, call))
      {
        assert rules[i..][0] == rules[i] && rules[i..][1..] == rules[i + 1..];
        var ok := Match(rules[i].rule, call);
        if ok {
          return Some(rules[i]);
        }
      }
      r := None;
    }

    method BuildArgv(extra: seq<string>, options: seq<CallOption>) returns (argv: seq<string>)
      ensures argv == Words(options) + extra && Spells(argv, options, extra)
    {
      argv := [];
      for i := 0 to |options|
        invariant argv == Words(options[..i])
      {
        assert options[..i + 1] == options[..i] + [options[i]];
        WordsAppend(options[..i], options[i]);
        if options[i].long != "" {
          argv := argv + ["--" + options[i].long];
        } else {
          argv := argv + ["-" + options[i].short];
        }
        if options[i].value.Some? {
          argv := argv + [options[i].value.value];
        }
      }
      assert options[..|options|] == options;
      argv := argv + extra;
      ghost var blocks := WordsSpell(options);
    }

    method RunShellCommand(req: Request) returns (reply: Reply)
      modifies this`ran
      ensures reply == RunReply(machine, homeRoot, layers, req)
      ensures !(reply.Decided? && Executes(reply.verdict.tier, req.approved)) ==> ran == old(ran)
      ensures reply.Decided? && Executes(reply.verdict.tier, req.approved) ==>
                && machine.lookPath(req.positional[0]).Some?
                && ran == old(ran) + [Execution(machine.lookPath(req.positional[0]).value,
                                                Words(req.options) + req.positional[1..], reply.dir)]
                && Spells(ran[|old(ran)|].argv, req.options, req.positional[1..])
    {
      if |req.positional| == 0 {
        return NoBinary;
      }
      if homeRoot == "" {
        return NotConfigured;
      }
      var dir := homeRoot;
      if req.path != "" {
        var target := machine.directory(homeRoot, req.path);
        if target.None? {
          return BadPath;
        }
        dir := target.value;
      }
      var binary := machine.lookPath(req.positional[0]);
      if binary.None? {
        return NotFound;
      }
      var choice := MatchPolicy(layers, Call([binary.value] + req.positional[1..], req.options, dir));
      reply := Decided(Judged(choice), dir);
      if choice.None? {
        return;
      }
      var tier := choice.value.rule.tier;
      if tier == Deny || (tier == Ask && !req.approved) {
        return;
      }
      var argv := BuildArgv(req.positional[1..], req.options);
      ran := ran + [Execution(binary.value, argv, dir)];
    }

    /** Evaluates a hypothetical call against layers given with the request. */
    method EvalPolicy(layers: seq<Layer<Pattern>>, req: Request, cwd: string) returns (reply: Reply)
      ensures reply == EvalReply(machine, layers, req, cwd)
    {
      if |req.positional| == 0 {
        return NoBinary;
      }
      var binary := req.positional[0];
      var resolved := machine.lookPath(binary);
      if resolved.Some? {
        binary := resolved.value;
      }
      var choice := MatchPolicy(layers, Call([binary] + req.positional[1..], req.options, cwd));
      reply := Decided(Judged(choice), cwd);
    }
  }
}
