/** Passes and the cache of analyses between them. A pipeline of honest passes keeps its cache equal to fresh
    computation, and leaves the IR that the same pipeline leaves when nothing is ever cached. */
module PassManager {
  /** The IR, its parts, the kinds of analyses and their results: nothing about them matters here. */
  type Ir(!new)
  type Op(==, !new)
  type RegionPtr(!new)
  type BlockPtr(!new)
  type Kind(==, !new)
  type Data(==, !new)

  datatype Key = Key(kind: Kind, op: Op)
  type Cache = map<Key, Data>

  datatype PassResult = PassResult(changed: bool, preserved: set<Kind>)

  const DefaultResult := PassResult(false, {})

  datatype Result<+T> = Ok(value: T) | Err

  /** What the computation of an analysis does next: it may ask for other analyses before it answers, and gives up if one
      of them cannot be had. */
  datatype Move = Answer(data: Data) | Failure | Ask(key: Key)

  /** What running a pass that manages no others leaves: the IR, the cache and its result. */
  datatype Done = Done(ir: Ir, cache: Cache, res: PassResult)

  datatype Pass =
    | Leaf(name: string, run: (Op, Ir, Cache) -> Result<Done>)
    | Passes(passes: seq<Pass>)
    | NestedOps(pass: Pass)
    | Guarded(allowed: (Op, Ir) -> bool, pass: Pass)

  /** How to look into the IR, how to compute an analysis (the next move, by what was got so far), and the configuration
      of the pass manager. `asks` bounds how often a computation asks, and `depth` what it asks for. */
  datatype Env = Env(
    regions: (Op, Ir) -> seq<RegionPtr>, blocks: (RegionPtr, Ir) -> seq<BlockPtr>, ops: (BlockPtr, Ir) -> seq<Op>,
    compute: (Key, Ir, seq<Data>) -> Move, asks: (Key, Ir) -> nat, depth: Key -> nat, verify: (Op, Ir) -> bool,
    skip: set<string>, verifyBefore: set<string>, verifyAfter: set<string>)

  // ----- fresh computation -----

  /** Computations come to an end, and do not ask for each other in circles. */
  ghost predicate Acyclic(env: Env) {
    forall k, ir, got :: var m := env.compute(k, ir, got); m.Ask? ==> |got| < env.asks(k, ir) && env.depth(m.key) < env.depth(k)
  }

  /** The analysis as computed without any cache. */
  ghost function Computed(env: Env, k: Key, ir: Ir): Result<Data>
    requires Acyclic(env)
    decreases env.depth(k), env.asks(k, ir) + 1
  {
    ComputedFrom(env, k, ir, [])
  }

  /** The rest of the computation, once it has got the answers to its first questions. */
  ghost function ComputedFrom(env: Env, k: Key, ir: Ir, got: seq<Data>): Result<Data>
    requires Acyclic(env)
    decreases env.depth(k), if |got| <= env.asks(k, ir) then env.asks(k, ir) - |got| else 0
  {
    match env.compute(k, ir, got)
    case Answer(d) => Ok(d)
    case Failure => Err
    case Ask(q) =>
      var r := Computed(env, q, ir);
      if r.Err? then Err else ComputedFrom(env, k, ir, got + [r.value])
  }

  // ----- what honesty is -----

  /** Every cached analysis equals fresh computation. */
  ghost predicate Fresh(env: Env, cache: Cache, ir: Ir)
    requires Acyclic(env)
  {
    forall k :: k in cache ==> Computed(env, k, ir) == Ok(cache[k])
  }

  function Kinds(cache: Cache): set<Kind> {
    set k | k in cache :: k.kind
  }

  /** The entries that survive a pass with this result. */
  function Retained(cache: Cache, res: PassResult): Cache {
    if !res.changed then cache else map k | k in cache && k.kind in res.preserved :: cache[k]
  }

  /** What the result claims to be preserved equals fresh computation. */
  ghost predicate HonestResult(env: Env, cache: Cache, ir: Ir, res: PassResult)
    requires Acyclic(env)
  {
    Fresh(env, Retained(cache, res), ir)
  }

  /** From a fresh cache, a successful run leaves a truthful claim. */
  ghost predicate Honest(env: Env, run: (Op, Ir, Cache) -> Result<Done>)
    requires Acyclic(env)
  {
    forall op, ir, cache :: Fresh(env, cache, ir) ==>
      var r := run(op, ir, cache); r.Ok? ==> HonestResult(env, r.value.cache, r.value.ir, r.value.res)
  }

  /** What a run does to the IR does not depend on which fresh analyses happen to be cached. */
  ghost predicate CacheBlind(env: Env, run: (Op, Ir, Cache) -> Result<Done>)
    requires Acyclic(env)
  {
    forall op, ir, cache :: Fresh(env, cache, ir) ==> SameEffect(run(op, ir, cache), run(op, ir, map[]))
  }

  ghost predicate SameEffect(r: Result<Done>, s: Result<Done>) {
    && (r.Ok? <==> s.Ok?)
    && (r.Ok? ==> r.value.ir == s.value.ir && r.value.res.changed == s.value.res.changed)
  }

  /** Every pass in the pipeline that manages no others is honest. */
  ghost predicate AllHonest(env: Env, p: Pass)
    requires Acyclic(env)
    decreases p
  {
    match p
    case Leaf(_, run) => Honest(env, run)
    case Passes(ps) => forall i :: 0 <= i < |ps| ==> AllHonest(env, ps[i])
    case NestedOps(q) => AllHonest(env, q)
    case Guarded(_, q) => AllHonest(env, q)
  }

  ghost predicate AllBlind(env: Env, p: Pass)
    requires Acyclic(env)
    decreases p
  {
    match p
    case Leaf(_, run) => CacheBlind(env, run)
    case Passes(ps) => forall i :: 0 <= i < |ps| ==> AllBlind(env, ps[i])
    case NestedOps(q) => AllBlind(env, q)
    case Guarded(_, q) => AllBlind(env, q)
  }

  /** From a fresh cache, a successful run that reports no change leaves the IR as it was. */
  ghost predicate Truthful(env: Env, run: (Op, Ir, Cache) -> Result<Done>)
    requires Acyclic(env)
  {
    forall op, ir, cache :: Fresh(env, cache, ir) ==> var r := run(op, ir, cache); r.Ok? && !r.value.res.changed ==> r.value.ir == ir
  }

  ghost predicate AllTruthful(env: Env, p: Pass)
    requires Acyclic(env)
    decreases p
  {
    match p
    case Leaf(_, run) => Truthful(env, run)
    case Passes(ps) => forall i :: 0 <= i < |ps| ==> AllTruthful(env, ps[i])
    case NestedOps(q) => AllTruthful(env, q)
    case Guarded(_, q) => AllTruthful(env, q)
  }

  /** A run leaves cached analyses of a kind alone, and reports them preserved if it changed anything. */
  ghost predicate Spares(run: (Op, Ir, Cache) -> Result<Done>, kind: Kind) {
    forall op, ir, cache :: var r := run(op, ir, cache);
      r.Ok? ==> StillThere(cache, r.value.cache, kind) && (r.value.res.changed ==> kind in r.value.res.preserved)
  }

  ghost predicate AllSpare(p: Pass, kind: Kind)
    decreases p
  {
    match p
    case Leaf(_, run) => Spares(run, kind)
    case Passes(ps) => forall i :: 0 <= i < |ps| ==> AllSpare(ps[i], kind)
    case NestedOps(q) => AllSpare(q, kind)
    case Guarded(_, q) => AllSpare(q, kind)
  }

  /** What was cached of a kind is cached still. */
  ghost predicate StillThere(before: Cache, after: Cache, kind: Kind) {
    forall k :: k in before && k.kind == kind ==> k in after && after[k] == before[k]
  }

  /** It is, and the result says so. */
  ghost predicate Spared(before: Cache, after: Cache, res: PassResult, kind: Kind) {
    && StillThere(before, after, kind)
    && (res.changed && (exists k :: k in before && k.kind == kind) ==> kind in res.preserved)
  }

  ghost predicate EverySpares(ps: seq<Pass>, kind: Kind) {
    forall i :: 0 <= i < |ps| ==> AllSpare(ps[i], kind)
  }

  /** What is cached of the kinds that all passes spare is cached still. */
  ghost predicate AllStill(ps: seq<Pass>, before: Cache, after: Cache) {
    forall kind :: EverySpares(ps, kind) ==> StillThere(before, after, kind)
  }

  lemma {:induction false} SparedNext(ps: seq<Pass>, p: Pass, a: Cache, b: Cache, c: Cache, res: PassResult)
    requires AllStill(ps, a, b) && p in ps && forall kind :: AllSpare(p, kind) ==> Spared(b, c, res, kind)
    ensures AllStill(ps, a, Retained(c, res))
  {
    forall kind | EverySpares(ps, kind) ensures StillThere(a, Retained(c, res), kind) {
      assert AllSpare(p, kind) && StillThere(a, b, kind) && Spared(b, c, res, kind);
    }
  }

  lemma SparedMore(ps: seq<Pass>, p: Pass, a: Cache, b: Cache, c: Cache)
    requires AllStill(ps, a, b) && p in ps && AllStill([p], b, c)
    ensures AllStill(ps, a, c)
  {
    forall kind | EverySpares(ps, kind) ensures StillThere(a, c, kind) {
      assert EverySpares([p], kind) && StillThere(a, b, kind) && StillThere(b, c, kind);
    }
  }

  lemma SparedAtLast(ps: seq<Pass>, before: Cache, after: Cache, changed: bool)
    requires AllStill(ps, before, after)
    ensures forall kind :: EverySpares(ps, kind) ==> Spared(before, after, PassResult(changed, Kinds(after)), kind)
  {
  }

  ghost predicate EveryBlind(env: Env, ps: seq<Pass>)
    requires Acyclic(env)
  {
    forall i :: 0 <= i < |ps| ==> AllBlind(env, ps[i])
  }

  ghost predicate EveryTruthful(env: Env, ps: seq<Pass>)
    requires Acyclic(env)
  {
    forall i :: 0 <= i < |ps| ==> AllTruthful(env, ps[i])
  }

  // ----- what ran -----

  /** A pass that manages no others ran on an op. */
  datatype Step = Step(name: string, op: Op, before: Ir, after: Ir, changed: bool)

  /** The steps lead from one IR to another. */
  ghost predicate Leads(steps: seq<Step>, from: Ir, to: Ir) {
    if steps == [] then from == to else steps[0].before == from && Leads(steps[1..], steps[0].after, to)
  }

  /** None of them was to be skipped, and the verifications asked for passed. */
  ghost predicate StepOk(env: Env, s: Step) {
    && s.name !in env.skip
    && (s.name in env.verifyBefore ==> env.verify(s.op, s.before)) && (s.name in env.verifyAfter ==> env.verify(s.op, s.after))
  }

  ghost predicate SomeChanged(steps: seq<Step>) {
    exists k :: 0 <= k < |steps| && steps[k].changed
  }

  /** From one IR to another by these steps. */
  ghost predicate Ran(env: Env, steps: seq<Step>, from: Ir, to: Ir) {
    Leads(steps, from, to) && forall k :: 0 <= k < |steps| ==> StepOk(env, steps[k])
  }

  lemma RanThen(env: Env, xs: seq<Step>, ys: seq<Step>, a: Ir, b: Ir, c: Ir)
    requires Ran(env, xs, a, b) && Ran(env, ys, b, c)
    ensures Ran(env, xs + ys, a, c) && (SomeChanged(xs + ys) <==> SomeChanged(xs) || SomeChanged(ys))
  {
    LeadsThen(xs, ys, a, b, c);
    var zs := xs + ys;
    assert forall k :: 0 <= k < |xs| ==> zs[k] == xs[k];
    assert forall k :: 0 <= k < |ys| ==> zs[|xs| + k] == ys[k];
  }

  lemma {:induction false} LeadsThen(xs: seq<Step>, ys: seq<Step>, a: Ir, b: Ir, c: Ir)
    requires Leads(xs, a, b) && Leads(ys, b, c)
    ensures Leads(xs + ys, a, c)
    decreases |xs|
  {
    if xs == [] {
      assert xs + ys == ys;
    } else {
      LeadsThen(xs[1..], ys, xs[0].after, b, c);
      assert (xs + ys)[1..] == xs[1..] + ys;
    }
  }

  /** Running it on one op: no step if it is to be skipped, and one otherwise. */
  function Once(env: Env, p: Pass, op: Op): seq<Op>
    requires p.Leaf?
  {
    if p.name in env.skip then [] else [op]
  }

  /** A pass that manages no others succeeds if it is to be skipped, or else if its own run and the verifications asked
      for succeed. */
  ghost predicate LeafSucceeds(env: Env, p: Pass, op: Op, ir: Ir, cache: Cache)
    requires p.Leaf?
  {
    var d := p.run(op, ir, cache);
    || p.name in env.skip
    || (d.Ok? && (p.name in env.verifyBefore ==> env.verify(op, ir)) && (p.name in env.verifyAfter ==> env.verify(op, d.value.ir)))
  }

  function OpsOf(steps: seq<Step>): seq<Op> {
    seq(|steps|, i requires 0 <= i < |steps| => steps[i].op)
  }

  lemma SinceStart(start: seq<Step>, done: seq<Step>, between: seq<Step>, now: seq<Step>)
    requires between == start + done && between <= now
    ensures now == start + (done + now[|between|..]) && now[|start|..] == done + now[|between|..]
  {
  }

  lemma OneStep(s: Step)
    ensures SomeChanged([s]) <==> s.changed
  {
    if s.changed { assert [s][0].changed; }
  }

  /** Passes that manage no others, and are not to be skipped. */
  predicate EveryLeaf(env: Env, ps: seq<Pass>) {
    forall i :: 0 <= i < |ps| ==> ps[i].Leaf? && ps[i].name !in env.skip
  }

  /** Each of the passes ran once on the op, one after another. */
  predicate EachOnce(ps: seq<Pass>, op: Op, steps: seq<Step>) {
    |steps| == |ps| && forall k :: 0 <= k < |ps| ==> ps[k].Leaf? && steps[k].name == ps[k].name && steps[k].op == op
  }

  lemma NamesNext(ps: seq<Pass>, op: Op, i: nat, done: seq<Step>, more: seq<Step>)
    requires i < |ps| && ps[i].Leaf? && EachOnce(ps[..i], op, done) && OpsOf(more) == [op] && forall s :: s in more ==> s.name == ps[i].name
    ensures EachOnce(ps[..i + 1], op, done + more)
  {
    assert |more| == 1 && more[0] in more && OpsOf(more)[0] == more[0].op;
  }

  /** What a pipeline has done after `i` of its passes. */
  ghost predicate SoFar(env: Env, ps: seq<Pass>, op: Op, i: nat, done: seq<Step>, from: Ir, to: Ir, changed: bool)
    requires Acyclic(env) && i <= |ps|
  {
    && Ran(env, done, from, to) && (changed <==> SomeChanged(done))
    && (EveryTruthful(env, ps) && !changed ==> to == from)
    && (EveryLeaf(env, ps) ==> EachOnce(ps[..i], op, done))
  }

  lemma {:induction false} SoFarNext(env: Env, ps: seq<Pass>, op: Op, i: nat, done: seq<Step>, more: seq<Step>, a: Ir, b: Ir, c: Ir, changed: bool, also: bool)
    requires Acyclic(env) && i < |ps| && SoFar(env, ps, op, i, done, a, b, changed) && Ran(env, more, b, c) && (also <==> SomeChanged(more))
    requires AllTruthful(env, ps[i]) && !also ==> c == b
    requires EveryLeaf(env, ps) ==> OpsOf(more) == Once(env, ps[i], op) && forall s :: s in more ==> s.name == ps[i].name
    ensures SoFar(env, ps, op, i + 1, done + more, a, c, changed || also)
  {
    RanThen(env, done, more, a, b, c);
    if EveryLeaf(env, ps) { NamesNext(ps, op, i, done, more); }
  }

  /** What a pass has done to these ops. */
  ghost predicate OverOps(env: Env, q: Pass, ops: seq<Op>, done: seq<Step>, from: Ir, to: Ir, before: bool, changed: bool)
    requires Acyclic(env)
  {
    && Ran(env, done, from, to) && (changed <==> before || SomeChanged(done))
    && (AllTruthful(env, q) && !changed ==> to == from)
    && (q.Leaf? && q.name !in env.skip ==> OpsOf(done) == ops)
  }

  lemma {:induction false} OverOpsNext(env: Env, q: Pass, ops: seq<Op>, i: nat, done: seq<Step>, more: seq<Step>, a: Ir, b: Ir, c: Ir,
                    before: bool, changed: bool, also: bool)
    requires Acyclic(env) && i < |ops| && OverOps(env, q, ops[..i], done, a, b, before, changed)
    requires Ran(env, more, b, c) && (also <==> SomeChanged(more)) && (AllTruthful(env, q) && !also ==> c == b)
    requires q.Leaf? ==> OpsOf(more) == Once(env, q, ops[i])
    ensures OverOps(env, q, ops[..i + 1], done + more, a, c, before, changed || also)
  {
    RanThen(env, done, more, a, b, c);
    OpsThen(done, more);
  }

  lemma OpsThen(xs: seq<Step>, ys: seq<Step>)
    ensures OpsOf(xs + ys) == OpsOf(xs) + OpsOf(ys)
  {
  }

  /** What is inside an op does not depend on what the passes do to the rest of the IR. */
  ghost predicate Fixed(env: Env) {
    && (forall op, ir, ir' :: env.regions(op, ir) == env.regions(op, ir'))
    && (forall r, ir, ir' :: env.blocks(r, ir) == env.blocks(r, ir'))
    && (forall b, ir, ir' :: env.ops(b, ir) == env.ops(b, ir'))
  }

  /** The ops of some blocks, and of all blocks of some regions, in order. */
  function OpsInBlocks(env: Env, blocks: seq<BlockPtr>, ir: Ir): seq<Op> {
    if blocks == [] then [] else env.ops(blocks[0], ir) + OpsInBlocks(env, blocks[1..], ir)
  }

  function OpsInRegions(env: Env, regions: seq<RegionPtr>, ir: Ir): seq<Op> {
    if regions == [] then [] else OpsInBlocks(env, env.blocks(regions[0], ir), ir) + OpsInRegions(env, regions[1..], ir)
  }

  lemma {:induction false} FixedBlocks(env: Env, blocks: seq<BlockPtr>, ir: Ir, ir': Ir)
    requires Fixed(env)
    ensures OpsInBlocks(env, blocks, ir) == OpsInBlocks(env, blocks, ir')
  {
    if blocks != [] { FixedBlocks(env, blocks[1..], ir, ir'); }
  }

  /** The next block, or region, of those that are left. */
  lemma {:induction false} BlocksNext(env: Env, blocks: seq<BlockPtr>, i: nat, ir: Ir, ir': Ir, done: seq<Op>, more: seq<Op>)
    requires Fixed(env) && i < |blocks| && more == env.ops(blocks[i], ir')
    requires done + OpsInBlocks(env, blocks[i..], ir) == OpsInBlocks(env, blocks, ir)
    ensures (done + more) + OpsInBlocks(env, blocks[i + 1..], ir) == OpsInBlocks(env, blocks, ir)
  {
    assert blocks[i..][0] == blocks[i] && blocks[i..][1..] == blocks[i + 1..];
    assert env.ops(blocks[i], ir') == env.ops(blocks[i], ir);
    assert done + (more + OpsInBlocks(env, blocks[i + 1..], ir)) == (done + more) + OpsInBlocks(env, blocks[i + 1..], ir);
  }

  lemma {:induction false} RegionsNext(env: Env, regions: seq<RegionPtr>, i: nat, ir: Ir, ir': Ir, done: seq<Op>, more: seq<Op>)
    requires Fixed(env) && i < |regions| && more == OpsInBlocks(env, env.blocks(regions[i], ir'), ir')
    requires done + OpsInRegions(env, regions[i..], ir) == OpsInRegions(env, regions, ir)
    ensures (done + more) + OpsInRegions(env, regions[i + 1..], ir) == OpsInRegions(env, regions, ir)
  {
    assert regions[i..][0] == regions[i] && regions[i..][1..] == regions[i + 1..];
    assert env.blocks(regions[i], ir') == env.blocks(regions[i], ir);
    FixedBlocks(env, env.blocks(regions[i], ir), ir, ir');
    assert done + (more + OpsInRegions(env, regions[i + 1..], ir)) == (done + more) + OpsInRegions(env, regions[i + 1..], ir);
  }

  /** They are the ops of the blocks of the regions, and nothing else. */
  lemma {:induction false} InRegionsIff(env: Env, regions: seq<RegionPtr>, ir: Ir, o: Op)
    ensures o in OpsInRegions(env, regions, ir) <==> exists r, b :: r in regions && b in env.blocks(r, ir) && o in env.ops(b, ir)
  {
    if regions != [] {
      InBlocksIff(env, env.blocks(regions[0], ir), ir, o);
      InRegionsIff(env, regions[1..], ir, o);
    }
  }

  lemma {:induction false} InBlocksIff(env: Env, blocks: seq<BlockPtr>, ir: Ir, o: Op)
    ensures o in OpsInBlocks(env, blocks, ir) <==> exists b :: b in blocks && o in env.ops(b, ir)
  {
    if blocks != [] { InBlocksIff(env, blocks[1..], ir, o); }
  }

  /** Ops of earlier regions, and in a region those of earlier blocks, come first. */
  lemma {:induction false} RegionsInOrder(env: Env, xs: seq<RegionPtr>, ys: seq<RegionPtr>, ir: Ir)
    ensures OpsInRegions(env, xs + ys, ir) == OpsInRegions(env, xs, ir) + OpsInRegions(env, ys, ir)
    decreases |xs|
  {
    if xs == [] {
      assert xs + ys == ys;
    } else {
      RegionsInOrder(env, xs[1..], ys, ir);
      assert (xs + ys)[1..] == xs[1..] + ys;
    }
  }

  lemma {:induction false} BlocksInOrder(env: Env, xs: seq<BlockPtr>, ys: seq<BlockPtr>, ir: Ir)
    ensures OpsInBlocks(env, xs + ys, ir) == OpsInBlocks(env, xs, ir) + OpsInBlocks(env, ys, ir)
    decreases |xs|
  {
    if xs == [] {
      assert xs + ys == ys;
    } else {
      BlocksInOrder(env, xs[1..], ys, ir);
      assert (xs + ys)[1..] == xs[1..] + ys;
    }
  }

  // ----- the pipeline without a cache -----

  /** The IR, and whether it changed. */
  datatype Effect = Effect(ir: Ir, changed: bool)

  /** A run of the pipeline has the effect that it has without a cache. */
  ghost predicate HasEffect(r: Result<bool>, ir: Ir, plain: Result<Effect>) {
    && (r.Ok? <==> plain.Ok?)
    && (r.Ok? ==> Effect(ir, r.value) == plain.value)
  }

  function Changed(r: Result<PassResult>): Result<bool> {
    if r.Ok? then Ok(r.value.changed) else Err
  }

  ghost function PlainHooked(env: Env, p: Pass, op: Op, ir: Ir): Result<Effect>
    decreases p, 1, 0
  {
    if p.Leaf? && p.name in env.skip then Ok(Effect(ir, false))
    else if p.Leaf? && p.name in env.verifyBefore && !env.verify(op, ir) then Err
    else
      var r := Plain(env, p, op, ir);
      if p.Leaf? && p.name in env.verifyAfter && r.Ok? && !env.verify(op, r.value.ir) then Err else r
  }

  ghost function Plain(env: Env, p: Pass, op: Op, ir: Ir): Result<Effect>
    decreases p, 0, 0
  {
    match p
    case Leaf(_, run) =>
      var r := run(op, ir, map[]);
      if r.Ok? then Ok(Effect(r.value.ir, r.value.res.changed)) else Err
    case Passes(ps) => PlainSeq(env, ps, op, ir, false)
    case NestedOps(q) => PlainRegions(env, q, env.regions(op, ir), ir, false)
    case Guarded(allowed, q) => if allowed(op, ir) then PlainHooked(env, q, op, ir) else Ok(Effect(ir, false))
  }

  ghost function PlainSeq(env: Env, ps: seq<Pass>, op: Op, ir: Ir, changed: bool): Result<Effect>
    decreases ps, 2, |ps|
  {
    if ps == [] then Ok(Effect(ir, changed)) else
    var r := PlainHooked(env, ps[0], op, ir);
    if r.Err? then Err else PlainSeq(env, ps[1..], op, r.value.ir, changed || r.value.changed)
  }

  ghost function PlainOps(env: Env, q: Pass, ops: seq<Op>, ir: Ir, changed: bool): Result<Effect>
    decreases q, 2, |ops|
  {
    if ops == [] then Ok(Effect(ir, changed)) else
    var r := PlainHooked(env, q, ops[0], ir);
    if r.Err? then Err else PlainOps(env, q, ops[1..], r.value.ir, changed || r.value.changed)
  }

  ghost function PlainBlocks(env: Env, q: Pass, blocks: seq<BlockPtr>, ir: Ir, changed: bool): Result<Effect>
    decreases q, 3, |blocks|
  {
    if blocks == [] then Ok(Effect(ir, changed)) else
    var r := PlainOps(env, q, env.ops(blocks[0], ir), ir, changed);
    if r.Err? then Err else PlainBlocks(env, q, blocks[1..], r.value.ir, r.value.changed)
  }

  ghost function PlainRegions(env: Env, q: Pass, regions: seq<RegionPtr>, ir: Ir, changed: bool): Result<Effect>
    decreases q, 4, |regions|
  {
    if regions == [] then Ok(Effect(ir, changed)) else
    var r := PlainBlocks(env, q, env.blocks(regions[0], ir), ir, changed);
    if r.Err? then Err else PlainRegions(env, q, regions[1..], r.value.ir, r.value.changed)
  }

  // ----- skipping -----

  /** The pipeline with the named passes taken out. */
  function Erased(p: Pass, names: set<string>): Pass
    decreases p
  {
    match p
    case Leaf(name, _) => if name in names then Passes([]) else p
    case Passes(ps) => Passes(ErasedAll(ps, names))
    case NestedOps(q) => NestedOps(Erased(q, names))
    case Guarded(allowed, q) => Guarded(allowed, Erased(q, names))
  }

  function ErasedAll(ps: seq<Pass>, names: set<string>): seq<Pass>
    decreases ps
  {
    if ps == [] then [] else [Erased(ps[0], names)] + ErasedAll(ps[1..], names)
  }

  /** Skipping passes by name, wherever they are nested, is the same as running the pipeline without them. */
  lemma {:induction false} SkippedIsErased(env: Env, p: Pass, op: Op, ir: Ir)
    ensures PlainHooked(env, p, op, ir) == PlainHooked(env.(skip := {}), Erased(p, env.skip), op, ir)
    decreases p, 1, 0
  {
    var e := env.(skip := {});
    match p
    case Leaf(name, _) => if name in env.skip { assert Plain(e, Passes([]), op, ir) == PlainSeq(e, [], op, ir, false); }
    case Passes(ps) => SkippedSeq(env, ps, op, ir, false);
    case NestedOps(q) => SkippedRegions(env, q, env.regions(op, ir), ir, false);
    case Guarded(allowed, q) => if allowed(op, ir) { SkippedIsErased(env, q, op, ir); }
  }

  lemma {:induction false} SkippedSeq(env: Env, ps: seq<Pass>, op: Op, ir: Ir, changed: bool)
    ensures PlainSeq(env, ps, op, ir, changed) == PlainSeq(env.(skip := {}), ErasedAll(ps, env.skip), op, ir, changed)
    decreases ps, 2, |ps|
  {
    if ps != [] {
      SkippedIsErased(env, ps[0], op, ir);
      var r := PlainHooked(env, ps[0], op, ir);
      if r.Ok? { SkippedSeq(env, ps[1..], op, r.value.ir, changed || r.value.changed); }
      assert ErasedAll(ps, env.skip)[1..] == ErasedAll(ps[1..], env.skip);
    }
  }

  lemma {:induction false} SkippedOps(env: Env, q: Pass, ops: seq<Op>, ir: Ir, changed: bool)
    ensures PlainOps(env, q, ops, ir, changed) == PlainOps(env.(skip := {}), Erased(q, env.skip), ops, ir, changed)
    decreases q, 2, |ops|
  {
    if ops != [] {
      SkippedIsErased(env, q, ops[0], ir);
      var r := PlainHooked(env, q, ops[0], ir);
      if r.Ok? { SkippedOps(env, q, ops[1..], r.value.ir, changed || r.value.changed); }
    }
  }

  lemma {:induction false} SkippedBlocks(env: Env, q: Pass, blocks: seq<BlockPtr>, ir: Ir, changed: bool)
    ensures PlainBlocks(env, q, blocks, ir, changed) == PlainBlocks(env.(skip := {}), Erased(q, env.skip), blocks, ir, changed)
    decreases q, 3, |blocks|
  {
    if blocks != [] {
      SkippedOps(env, q, env.ops(blocks[0], ir), ir, changed);
      var r := PlainOps(env, q, env.ops(blocks[0], ir), ir, changed);
      if r.Ok? { SkippedBlocks(env, q, blocks[1..], r.value.ir, r.value.changed); }
    }
  }

  lemma {:induction false} SkippedRegions(env: Env, q: Pass, regions: seq<RegionPtr>, ir: Ir, changed: bool)
    ensures PlainRegions(env, q, regions, ir, changed) == PlainRegions(env.(skip := {}), Erased(q, env.skip), regions, ir, changed)
    decreases q, 4, |regions|
  {
    if regions != [] {
      SkippedBlocks(env, q, env.blocks(regions[0], ir), ir, changed);
      var r := PlainBlocks(env, q, env.blocks(regions[0], ir), ir, changed);
      if r.Ok? { SkippedRegions(env, q, regions[1..], r.value.ir, r.value.changed); }
    }
  }

  // ----- the pipeline as it runs -----

  class Manager {
    const env: Env
    var ir: Ir
    var analyses: Cache
    /** What ran so far. */
    ghost var steps: seq<Step>

    constructor (env: Env, ir: Ir)
      ensures this.env == env && this.ir == ir && analyses == map[]
      ensures Acyclic(env) ==> Valid()
    {
      this.env, this.ir, analyses, steps := env, ir, map[], [];
    }

    ghost predicate Valid()
      reads this
    {
      Acyclic(env) && Fresh(env, analyses, ir)
    }

    /** What ran since there were these steps. */
    ghost function Since(before: seq<Step>): seq<Step>
      requires |before| <= |steps|
      reads this
    {
      steps[|before|..]
    }

    /** Computes an analysis and caches it, unless it is cached already. The analyses that it asks for meanwhile are
        cached too. */
    method ComputeAnalysis(k: Key) returns (r: Result<Data>)
      requires Valid()
      modifies this`analyses
      ensures Valid() && r == Computed(env, k, ir) && Extends(old(analyses), analyses, env.depth(k) + 1)
      ensures r.Ok? ==> k in analyses && analyses[k] == r.value
      decreases env.depth(k), 1
    {
      if k in analyses { return Ok(analyses[k]); }
      r := Compute(k);
      if r.Ok? { analyses := analyses[k := r.value]; }
    }

    /** Carries a computation through: whatever it asks for comes from the cache or is computed and cached. */
    method Compute(k: Key) returns (r: Result<Data>)
      requires Valid()
      modifies this`analyses
      ensures Valid() && r == Computed(env, k, ir) && Extends(old(analyses), analyses, env.depth(k))
      decreases env.depth(k), 0
    {
      var got := [];
      var m := env.compute(k, ir, got);
      while m.Ask?
        invariant Valid() && Extends(old(analyses), analyses, env.depth(k))
        invariant m == env.compute(k, ir, got) && ComputedFrom(env, k, ir, got) == Computed(env, k, ir)
        decreases env.asks(k, ir) - |got|
      {
        var d := ComputeAnalysis(m.key);
        if d.Err? { return Err; }
        got := got + [d.value];
        m := env.compute(k, ir, got);
      }
      r := if m.Answer? then Ok(m.data) else Err;
    }

    /** Nothing cached changes, and what is added lies below the given depth. */
    ghost predicate Extends(before: Cache, after: Cache, n: nat) {
      && (forall k :: k in before ==> k in after && after[k] == before[k])
      && (forall k :: k in after && k !in before ==> env.depth(k) < n)
    }

    /** Drops the entries that a pass did not preserve. */
    method RetainPreserved(res: PassResult)
      modifies this`analyses
      ensures analyses == Retained(old(analyses), res)
    {
      if res.changed {
        analyses := map k | k in analyses && k.kind in res.preserved :: analyses[k];
      }
    }

    /** Runs a pass with the hooks for passes that manage no others: it may be skipped, and the IR may be verified
        before and after it. */
    method RunPass(p: Pass, op: Op) returns (r: Result<PassResult>)
      requires Valid() && AllHonest(env, p)
      modifies this
      ensures r.Ok? ==> HonestResult(env, analyses, ir, r.value)
      ensures AllBlind(env, p) ==> HasEffect(Changed(r), ir, PlainHooked(env, p, op, old(ir)))
      ensures old(steps) <= steps
      ensures r.Ok? ==> Ran(env, Since(old(steps)), old(ir), ir) && (r.value.changed <==> SomeChanged(Since(old(steps))))
      ensures r.Ok? && AllTruthful(env, p) && !r.value.changed ==> ir == old(ir)
      ensures r.Ok? ==> forall kind :: AllSpare(p, kind) ==> Spared(old(analyses), analyses, r.value, kind)
      ensures p.Leaf? ==> (r.Ok? <==> LeafSucceeds(env, p, op, old(ir), old(analyses)))
      ensures p.Leaf? && r.Ok? ==> OpsOf(Since(old(steps))) == Once(env, p, op) && forall s :: s in Since(old(steps)) ==> s.name == p.name
      decreases p, 1, 0
    {
      assert steps[|steps|..] == [];
      if p.Leaf? && p.name in env.skip { return Ok(DefaultResult); }
      if p.Leaf? && p.name in env.verifyBefore && !env.verify(op, ir) { return Err; }
      r := Run(p, op);
      if p.Leaf? && p.name in env.verifyAfter && r.Ok? && !env.verify(op, ir) { return Err; }
    }

    method Run(p: Pass, op: Op) returns (r: Result<PassResult>)
      requires Valid() && AllHonest(env, p)
      modifies this
      ensures r.Ok? ==> HonestResult(env, analyses, ir, r.value)
      ensures AllBlind(env, p) ==> HasEffect(Changed(r), ir, Plain(env, p, op, old(ir)))
      ensures old(steps) <= steps
      ensures r.Ok? && !p.Leaf? ==> Ran(env, Since(old(steps)), old(ir), ir)
      ensures r.Ok? ==> (r.value.changed <==> SomeChanged(Since(old(steps))))
      ensures r.Ok? && AllTruthful(env, p) && !r.value.changed ==> ir == old(ir)
      ensures r.Ok? ==> forall kind :: AllSpare(p, kind) ==> Spared(old(analyses), analyses, r.value, kind)
      ensures p.Leaf? ==> (r.Ok? <==> p.run(op, old(ir), old(analyses)).Ok?) && (r.Ok? ==> ir == p.run(op, old(ir), old(analyses)).value.ir)
      ensures p.Leaf? && r.Ok? ==> Since(old(steps)) == [Step(p.name, op, old(ir), ir, r.value.changed)]
      ensures p.Guarded? && !p.allowed(op, old(ir)) ==> r == Ok(DefaultResult) && ir == old(ir) && steps == old(steps)
      ensures p.Guarded? && p.allowed(op, old(ir)) && p.pass.Leaf? && r.Ok? ==> OpsOf(Since(old(steps))) == Once(env, p.pass, op)
      decreases p, 0, 0
    {
      match p
      case Leaf(_, run) =>
        var d := run(op, ir, analyses);
        assert CacheBlind(env, run) ==> SameEffect(d, run(op, ir, map[]));
        if d.Err? { return Err; }
        steps := steps + [Step(p.name, op, ir, d.value.ir, d.value.res.changed)];
        assert steps[|old(steps)|..] == [Step(p.name, op, ir, d.value.ir, d.value.res.changed)];
        OneStep(Step(p.name, op, ir, d.value.ir, d.value.res.changed));
        ir, analyses := d.value.ir, d.value.cache;
        r := Ok(d.value.res);
      case Passes(ps) => r := RunSeq(ps, op);
      case NestedOps(q) => r := RunNested(q, op);
      case Guarded(allowed, q) =>
        assert steps[|steps|..] == [];
        if allowed(op, ir) { r := RunPass(q, op); } else { r := Ok(DefaultResult); }
    }

    /** Runs passes one after another, and drops what each did not preserve. What is cached in the end is preserved. */
    method RunSeq(ps: seq<Pass>, op: Op) returns (r: Result<PassResult>)
      requires Valid() && forall i :: 0 <= i < |ps| ==> AllHonest(env, ps[i])
      modifies this
      ensures r.Ok? ==> Valid() && r.value.preserved == Kinds(analyses)
      ensures EveryBlind(env, ps) ==> HasEffect(Changed(r), ir, PlainSeq(env, ps, op, old(ir), false))
      ensures old(steps) <= steps
      ensures r.Ok? ==> Ran(env, Since(old(steps)), old(ir), ir) && (r.value.changed <==> SomeChanged(Since(old(steps))))
      ensures r.Ok? && EveryTruthful(env, ps) && !r.value.changed ==> ir == old(ir)
      ensures r.Ok? ==> forall kind :: EverySpares(ps, kind) ==> Spared(old(analyses), analyses, r.value, kind)
      ensures r.Ok? && EveryLeaf(env, ps) ==> EachOnce(ps, op, Since(old(steps)))
      decreases ps, 2, |ps|
    {
      ghost var new_: seq<Step> := [];
      var changed, i := false, 0;
      assert ps[0..] == ps;
      while i < |ps|
        invariant 0 <= i <= |ps| && Valid()
        invariant steps == old(steps) + new_ && SoFar(env, ps, op, i, new_, old(ir), ir, changed)
        invariant AllStill(ps, old(analyses), analyses)
        invariant EveryBlind(env, ps) ==> PlainSeq(env, ps[i..], op, ir, changed) == PlainSeq(env, ps, op, old(ir), false)
      {
        assert ps[i..][0] == ps[i] && ps[i..][1..] == ps[i + 1..];
        ghost var steps0, ir0, cache0 := steps, ir, analyses;
        r := RunPass(ps[i], op);
        if r.Err? { return Err; }
        SparedNext(ps, ps[i], old(analyses), cache0, analyses, r.value);
        SoFarNext(env, ps, op, i, new_, Since(steps0), old(ir), ir0, ir, changed, r.value.changed);
        SinceStart(old(steps), new_, steps0, steps);
        new_ := new_ + Since(steps0);
        changed := changed || r.value.changed;
        RetainPreserved(r.value);
        i := i + 1;
      }
      assert Since(old(steps)) == new_ && ps[..|ps|] == ps;
      SparedAtLast(ps, old(analyses), analyses, changed);
      r := Ok(PassResult(changed, Kinds(analyses)));
    }

    /** Runs a pass on every op directly inside `op`. */
    method RunNested(q: Pass, op: Op) returns (r: Result<PassResult>)
      requires Valid() && AllHonest(env, q)
      modifies this
      ensures r.Ok? ==> Valid() && r.value.preserved == Kinds(analyses)
      ensures AllBlind(env, q) ==> HasEffect(Changed(r), ir, PlainRegions(env, q, env.regions(op, old(ir)), old(ir), false))
      ensures old(steps) <= steps
      ensures r.Ok? ==> Ran(env, Since(old(steps)), old(ir), ir) && (r.value.changed <==> SomeChanged(Since(old(steps))))
      ensures r.Ok? && AllTruthful(env, q) && !r.value.changed ==> ir == old(ir)
      ensures r.Ok? ==> forall kind :: AllSpare(q, kind) ==> Spared(old(analyses), analyses, r.value, kind)
      ensures r.Ok? && q.Leaf? && q.name !in env.skip && Fixed(env) ==>
                OpsOf(Since(old(steps))) == OpsInRegions(env, env.regions(op, old(ir)), old(ir))
      decreases q, 5, 0
    {
      var regions := env.regions(op, ir);
      ghost var new_: seq<Step> := [];
      var changed, i := false, 0;
      assert regions[0..] == regions;
      while i < |regions|
        invariant 0 <= i <= |regions| && Valid()
        invariant steps == old(steps) + new_ && Ran(env, new_, old(ir), ir) && (changed <==> SomeChanged(new_))
        invariant AllTruthful(env, q) && !changed ==> ir == old(ir)
        invariant AllStill([q], old(analyses), analyses)
        invariant q.Leaf? && q.name !in env.skip && Fixed(env) ==>
                    OpsOf(new_) + OpsInRegions(env, regions[i..], old(ir)) == OpsInRegions(env, regions, old(ir))
        invariant AllBlind(env, q) ==> PlainRegions(env, q, regions[i..], ir, changed) == PlainRegions(env, q, regions, old(ir), false)
      {
        assert regions[i..][0] == regions[i] && regions[i..][1..] == regions[i + 1..];
        ghost var steps0, ir0, cache0 := steps, ir, analyses;
        var c := RunBlocks(q, env.blocks(regions[i], ir), changed);
        if c.Err? { return Err; }
        SparedMore([q], q, old(analyses), cache0, analyses);
        if q.Leaf? && q.name !in env.skip && Fixed(env) { RegionsNext(env, regions, i, old(ir), ir0, OpsOf(new_), OpsOf(Since(steps0))); }
        RanThen(env, new_, Since(steps0), old(ir), ir0, ir);
        OpsThen(new_, Since(steps0));
        SinceStart(old(steps), new_, steps0, steps);
        new_ := new_ + Since(steps0);
        changed := c.value;
        i := i + 1;
      }
      assert Since(old(steps)) == new_ && regions[|regions|..] == [];
      SparedAtLast([q], old(analyses), analyses, changed);
      r := Ok(PassResult(changed, Kinds(analyses)));
    }

    method RunBlocks(q: Pass, blocks: seq<BlockPtr>, before: bool) returns (r: Result<bool>)
      requires Valid() && AllHonest(env, q)
      modifies this
      ensures r.Ok? ==> Valid()
      ensures AllBlind(env, q) ==> HasEffect(r, ir, PlainBlocks(env, q, blocks, old(ir), before))
      ensures old(steps) <= steps
      ensures r.Ok? ==> Ran(env, Since(old(steps)), old(ir), ir) && (r.value <==> before || SomeChanged(Since(old(steps))))
      ensures r.Ok? && AllTruthful(env, q) && !r.value ==> ir == old(ir)
      ensures r.Ok? ==> AllStill([q], old(analyses), analyses)
      ensures r.Ok? && q.Leaf? && q.name !in env.skip && Fixed(env) ==> OpsOf(Since(old(steps))) == OpsInBlocks(env, blocks, old(ir))
      decreases q, 3, 0
    {
      ghost var new_: seq<Step> := [];
      var changed, i := before, 0;
      assert blocks[0..] == blocks;
      while i < |blocks|
        invariant 0 <= i <= |blocks| && Valid()
        invariant steps == old(steps) + new_ && Ran(env, new_, old(ir), ir) && (changed <==> before || SomeChanged(new_))
        invariant AllTruthful(env, q) && !changed ==> ir == old(ir)
        invariant AllStill([q], old(analyses), analyses)
        invariant q.Leaf? && q.name !in env.skip && Fixed(env) ==>
                    OpsOf(new_) + OpsInBlocks(env, blocks[i..], old(ir)) == OpsInBlocks(env, blocks, old(ir))
        invariant AllBlind(env, q) ==> PlainBlocks(env, q, blocks[i..], ir, changed) == PlainBlocks(env, q, blocks, old(ir), before)
      {
        assert blocks[i..][0] == blocks[i] && blocks[i..][1..] == blocks[i + 1..];
        ghost var steps0, ir0, cache0 := steps, ir, analyses;
        var c := RunOps(q, env.ops(blocks[i], ir), changed);
        if c.Err? { return Err; }
        SparedMore([q], q, old(analyses), cache0, analyses);
        if q.Leaf? && q.name !in env.skip && Fixed(env) { BlocksNext(env, blocks, i, old(ir), ir0, OpsOf(new_), OpsOf(Since(steps0))); }
        RanThen(env, new_, Since(steps0), old(ir), ir0, ir);
        OpsThen(new_, Since(steps0));
        SinceStart(old(steps), new_, steps0, steps);
        new_ := new_ + Since(steps0);
        changed := c.value;
        i := i + 1;
      }
      assert Since(old(steps)) == new_ && blocks[|blocks|..] == [];
      r := Ok(changed);
    }

    method RunOps(q: Pass, ops: seq<Op>, before: bool) returns (r: Result<bool>)
      requires Valid() && AllHonest(env, q)
      modifies this
      ensures r.Ok? ==> Valid()
      ensures AllBlind(env, q) ==> HasEffect(r, ir, PlainOps(env, q, ops, old(ir), before))
      ensures old(steps) <= steps
      ensures r.Ok? ==> Ran(env, Since(old(steps)), old(ir), ir) && (r.value <==> before || SomeChanged(Since(old(steps))))
      ensures r.Ok? && AllTruthful(env, q) && !r.value ==> ir == old(ir)
      ensures r.Ok? ==> AllStill([q], old(analyses), analyses)
      ensures r.Ok? && q.Leaf? && q.name !in env.skip ==> OpsOf(Since(old(steps))) == ops
      decreases q, 2, 0
    {
      ghost var new_: seq<Step> := [];
      var changed, i := before, 0;
      assert ops[0..] == ops;
      while i < |ops|
        invariant 0 <= i <= |ops| && Valid()
        invariant steps == old(steps) + new_ && OverOps(env, q, ops[..i], new_, old(ir), ir, before, changed)
        invariant AllStill([q], old(analyses), analyses)
        invariant AllBlind(env, q) ==> PlainOps(env, q, ops[i..], ir, changed) == PlainOps(env, q, ops, old(ir), before)
      {
        assert ops[i..][0] == ops[i] && ops[i..][1..] == ops[i + 1..];
        ghost var steps0, ir0, cache0 := steps, ir, analyses;
        var res := RunPass(q, ops[i]);
        if res.Err? { return Err; }
        SparedNext([q], q, old(analyses), cache0, analyses, res.value);
        OverOpsNext(env, q, ops, i, new_, Since(steps0), old(ir), ir0, ir, before, changed, res.value.changed);
        SinceStart(old(steps), new_, steps0, steps);
        new_ := new_ + Since(steps0);
        changed := changed || res.value.changed;
        RetainPreserved(res.value);
        i := i + 1;
      }
      assert Since(old(steps)) == new_ && ops[..|ops|] == ops;
      r := Ok(changed);
    }
  }
}
