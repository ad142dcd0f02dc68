/** A reconciliation run: attaching committed batches, becoming ready once, and what its manifest describes. */
module Readiness {
  import opened Common

  datatype Domain = Contracts | ServiceEvents | InvoiceStatus | OtherDomain(name: string)

  /** An import batch as a run sees it. */
  datatype Batch = Batch(id: nat, domain: Domain, watermark: string, coverage: set<nat>)

  /** One required domain: the batch selected for it, if any, with its watermark and coverage rows. */
  datatype RunInput = RunInput(domain: Domain, batch: Option<nat>, watermark: string, coverage: set<nat>)

  datatype Status = WaitingInputs | Ready

  /** Domains are unique, and the hash sorts by domain and is injective: a map stands for the hash. */
  datatype Entry = Entry(batch: Option<nat>, watermark: string, coverage: set<nat>)

  datatype Run = Run(inputs: seq<RunInput>, status: Status, manifest: Option<map<Domain, Entry>>)

  function EntryOf(x: RunInput): Entry {
    Entry(x.batch, x.watermark, x.coverage)
  }

  function Domains(inputs: seq<RunInput>): set<Domain> {
    set k | 0 <= k < |inputs| :: inputs[k].domain
  }

  predicate DomainsUnique(inputs: seq<RunInput>) {
    forall j, k | 0 <= j < k < |inputs| :: inputs[j].domain != inputs[k].domain
  }

  function ManifestOf(inputs: seq<RunInput>): map<Domain, Entry> {
    if inputs == [] then map[]
    else
      var last := inputs[|inputs| - 1];
      ManifestOf(inputs[..|inputs| - 1])[last.domain := EntryOf(last)]
  }

  function InputFor(inputs: seq<RunInput>, d: Domain, from: nat): (found: Option<nat>)
    requires from <= |inputs|
    ensures found.Some? ==> from <= found.value < |inputs| && inputs[found.value].domain == d
    ensures forall j | from <= j < found.GetOr(|inputs|) :: inputs[j].domain != d
    decreases |inputs| - from
  {
    if from == |inputs| then None
    else if inputs[from].domain == d then Some(from)
    else InputFor(inputs, d, from + 1)
  }

  /** Attaching asks only that the batch committed and the run wants its domain: not whether the run is ready. */
  function Attach(r: Run, b: Batch, committed: set<nat>): Run {
    if b.id !in committed then r
    else
      match InputFor(r.inputs, b.domain, 0)
      case None => r
      case Some(k) => r.(inputs := r.inputs[k := RunInput(b.domain, Some(b.id), b.watermark, b.coverage)])
  }

  datatype Blocker =
    WaitingFor(d: Domain) | UnresolvedIdentityBlocks | ReconciliationIssueBlocks | MissingCoverage(d: Domain)

  predicate Satisfied(x: RunInput, committed: set<nat>) {
    x.batch.Some? && x.batch.value in committed
  }

  function Waiting(inputs: seq<RunInput>, committed: set<nat>): (blockers: seq<Blocker>)
    ensures blockers == [] <==> forall k | 0 <= k < |inputs| :: Satisfied(inputs[k], committed)
  {
    if inputs == [] then []
    else
      var last := inputs[|inputs| - 1];
      Waiting(inputs[..|inputs| - 1], committed) + if Satisfied(last, committed) then [] else [WaitingFor(last.domain)]
  }

  function Uncovered(inputs: seq<RunInput>, committed: set<nat>): (blockers: seq<Blocker>)
    ensures blockers == [] <==>
              forall k | 0 <= k < |inputs| && Satisfied(inputs[k], committed) :: inputs[k].coverage != {}
  {
    if inputs == [] then []
    else
      var last := inputs[|inputs| - 1];
      Uncovered(inputs[..|inputs| - 1], committed)
      + if Satisfied(last, committed) && last.coverage == {} then [MissingCoverage(last.domain)] else []
  }

  function Blockers(r: Run, committed: set<nat>, identityIssue: bool, reconciliationIssue: bool): seq<Blocker> {
    Waiting(r.inputs, committed)
    + (if identityIssue then [UnresolvedIdentityBlocks] else [])
    + (if reconciliationIssue then [ReconciliationIssueBlocks] else [])
    + Uncovered(r.inputs, committed)
  }

  predicate Complete(r: Run, committed: set<nat>) {
    forall k | 0 <= k < |r.inputs| ::
      r.inputs[k].batch.Some? && r.inputs[k].batch.value in committed && r.inputs[k].coverage != {}
  }

  function Evaluate(r: Run, committed: set<nat>, identityIssue: bool, reconciliationIssue: bool): Run {
    if r.status.Ready? || Blockers(r, committed, identityIssue, reconciliationIssue) != [] then r
    else r.(status := Ready, manifest := Some(ManifestOf(r.inputs)))
  }

  // ---------------------------------------------------------------- laws

  /** Nothing blocks exactly when every domain has a committed batch with coverage and no issue is open. */
  lemma UnblockedIff(r: Run, committed: set<nat>, identityIssue: bool, reconciliationIssue: bool)
    ensures Blockers(r, committed, identityIssue, reconciliationIssue) == []
       <==> Complete(r, committed) && !identityIssue && !reconciliationIssue
  {
    var w, u := Waiting(r.inputs, committed), Uncovered(r.inputs, committed);
    assert |Blockers(r, committed, identityIssue, reconciliationIssue)|
        == |w| + (if identityIssue then 1 else 0) + (if reconciliationIssue then 1 else 0) + |u|;
  }

  /** The run still waits for the domain: no batch, or one that has not committed. */
  predicate Awaits(x: RunInput, committed: set<nat>, d: Domain) {
    x.domain == d && (x.batch.None? || x.batch.value !in committed)
  }

  /** The domain's committed batch came without coverage. */
  predicate Bare(x: RunInput, committed: set<nat>, d: Domain) {
    x.domain == d && x.batch.Some? && x.batch.value in committed && x.coverage == {}
  }

  lemma {:induction false} WaitingNames(inputs: seq<RunInput>, committed: set<nat>, blocker: Blocker)
    ensures blocker in Waiting(inputs, committed)
       <==> blocker.WaitingFor? && exists x <- inputs :: Awaits(x, committed, blocker.d)
    ensures blocker in Uncovered(inputs, committed)
       <==> blocker.MissingCoverage? && exists x <- inputs :: Bare(x, committed, blocker.d)
  {
    if inputs != [] {
      var shorter, last := inputs[..|inputs| - 1], inputs[|inputs| - 1];
      assert inputs == shorter + [last];
      WaitingNames(shorter, committed, blocker);
      hide Awaits, Bare;
      assert last in inputs;
      LastNames(last, committed, blocker);
    }
  }

  lemma LastNames(x: RunInput, committed: set<nat>, blocker: Blocker)
    ensures !Satisfied(x, committed) && blocker == WaitingFor(x.domain)
       <==> blocker.WaitingFor? && Awaits(x, committed, blocker.d)
    ensures Satisfied(x, committed) && x.coverage == {} && blocker == MissingCoverage(x.domain)
       <==> blocker.MissingCoverage? && Bare(x, committed, blocker.d)
  {
  }

  /** Each blocker is reported exactly in its own circumstances, naming its domain. */
  lemma BlockersName(r: Run, committed: set<nat>, identityIssue: bool, reconciliationIssue: bool, blocker: Blocker)
    ensures blocker in Blockers(r, committed, identityIssue, reconciliationIssue)
       <==> match blocker
            case WaitingFor(d) => exists x <- r.inputs :: Awaits(x, committed, d)
            case UnresolvedIdentityBlocks => identityIssue
            case ReconciliationIssueBlocks => reconciliationIssue
            case MissingCoverage(d) => exists x <- r.inputs :: Bare(x, committed, d)
  {
    WaitingNames(r.inputs, committed, blocker);
    hide Waiting, Uncovered, Awaits, Bare;
  }

  lemma {:induction false} ManifestAt(inputs: seq<RunInput>, k: nat)
    requires DomainsUnique(inputs) && k < |inputs|
    ensures inputs[k].domain in ManifestOf(inputs) && ManifestOf(inputs)[inputs[k].domain] == EntryOf(inputs[k])
  {
    if k < |inputs| - 1 {
      ManifestAt(inputs[..|inputs| - 1], k);
    }
  }

  lemma {:induction false} ManifestDomains(inputs: seq<RunInput>)
    ensures ManifestOf(inputs).Keys == Domains(inputs)
  {
    if inputs == [] {
      assert Domains(inputs) == {};
    } else {
      ManifestDomains(inputs[..|inputs| - 1]);
      assert Domains(inputs) == Domains(inputs[..|inputs| - 1]) + {inputs[|inputs| - 1].domain};
    }
  }

  /** Equal manifests mean the same batch, watermark and coverage for every domain, in whatever order. */
  lemma ManifestDeterminesInputs(x: seq<RunInput>, y: seq<RunInput>, j: nat)
    requires DomainsUnique(x) && DomainsUnique(y) && ManifestOf(x) == ManifestOf(y) && j < |x|
    ensures x[j] in y
  {
    ManifestAt(x, j);
    ManifestDomains(y);
    var k :| 0 <= k < |y| && y[k].domain == x[j].domain;
    ManifestAt(y, k);
  }

  datatype Action =
    BatchCommitted(id: nat)
  | BatchAttached(b: Batch)
  | ReadinessAsked(identityIssue: bool, reconciliationIssue: bool)

  datatype World = World(run: Run, committed: set<nat>)

  function Step(w: World, a: Action): World {
    match a
    case BatchCommitted(id) => w.(committed := w.committed + {id})
    case BatchAttached(b) => w.(run := Attach(w.run, b, w.committed))
    case ReadinessAsked(i, r) => w.(run := Evaluate(w.run, w.committed, i, r))
  }

  function RunAll(w: World, actions: seq<Action>): World
    decreases |actions|
  {
    if actions == [] then w else RunAll(Step(w, actions[0]), actions[1..])
  }

  predicate Inv(w: World) {
    && DomainsUnique(w.run.inputs)
    && (w.run.status.Ready? <==> w.run.manifest.Some?)
    && (forall k | 0 <= k < |w.run.inputs| && w.run.inputs[k].batch.Some? :: Satisfied(w.run.inputs[k], w.committed))
  }

  lemma StepKeeps(w: World, a: Action)
    requires Inv(w)
    ensures Inv(Step(w, a))
    ensures Domains(Step(w, a).run.inputs) == Domains(w.run.inputs)
    ensures w.run.status.Ready? ==> Step(w, a).run.status.Ready? && Step(w, a).run.manifest == w.run.manifest
  {
    if a.ReadinessAsked? {
      UnblockedIff(w.run, w.committed, a.identityIssue, a.reconciliationIssue);
    } else if a.BatchAttached? && a.b.id in w.committed && InputFor(w.run.inputs, a.b.domain, 0).Some? {
      var k := InputFor(w.run.inputs, a.b.domain, 0).value;
      var inputs' := Step(w, a).run.inputs;
      assert forall j | 0 <= j < |inputs'| :: inputs'[j].domain == w.run.inputs[j].domain;
    }
  }

  /**
   Readiness happens once: whatever is committed, attached or asked afterwards, the run stays ready under
   the manifest it had at that step, its required domains never change, and it only ever names committed batches.
   */
  lemma {:induction false} ReadyOnce(w: World, actions: seq<Action>)
    requires Inv(w) && w.run.status.Ready?
    ensures RunAll(w, actions).run.status.Ready? && RunAll(w, actions).run.manifest == w.run.manifest
    ensures Domains(RunAll(w, actions).run.inputs) == Domains(w.run.inputs)
    ensures Inv(RunAll(w, actions))
    decreases |actions|
  {
    hide Step, Inv;
    if actions != [] {
      StepKeeps(w, actions[0]);
      ReadyOnce(Step(w, actions[0]), actions[1..]);
    }
  }

  /** The step that makes a run ready records exactly the inputs it then has, all committed and covered. */
  lemma ManifestDescribesReadiness(w: World, a: Action)
    requires Inv(w) && w.run.status.WaitingInputs? && a.ReadinessAsked? && Step(w, a).run.status.Ready?
    ensures Step(w, a).run.inputs == w.run.inputs && Complete(w.run, w.committed)
    ensures !a.identityIssue && !a.reconciliationIssue
    ensures Step(w, a).run.manifest == Some(ManifestOf(w.run.inputs))
  {
    UnblockedIff(w.run, w.committed, a.identityIssue, a.reconciliationIssue);
  }

  /**
   Attaching does not look at the status. A ready run whose manifest described its inputs still does after an
   attach exactly when the batch had not committed, is for a domain the run does not want, or brings the
   batch, watermark and coverage the manifest already names.
   */
  lemma AttachKeepsDescriptionIff(r: Run, b: Batch, committed: set<nat>)
    requires DomainsUnique(r.inputs) && r.manifest == Some(ManifestOf(r.inputs))
    ensures Attach(r, b, committed).manifest == r.manifest
    ensures r.manifest.value == ManifestOf(Attach(r, b, committed).inputs)
       <==> || b.id !in committed || b.domain !in r.manifest.value
            || r.manifest.value[b.domain] == Entry(Some(b.id), b.watermark, b.coverage)
  {
    ManifestDomains(r.inputs);
    var found := InputFor(r.inputs, b.domain, 0);
    if b.id in committed && found.Some? {
      var k := found.value;
      var inputs' := Attach(r, b, committed).inputs;
      ManifestAt(r.inputs, k);
      assert forall j | 0 <= j < |inputs'| :: inputs'[j].domain == r.inputs[j].domain;
      ManifestAt(inputs', k);
      if r.manifest.value[b.domain] == Entry(Some(b.id), b.watermark, b.coverage) {
        assert inputs' == r.inputs;
      }
    }
  }

  const FIRST_BATCH := Batch(1, InvoiceStatus, "", {1})
  const LATER_BATCH := Batch(2, InvoiceStatus, "", {2})
  const WAITING_RUN := World(Run([RunInput(InvoiceStatus, None, "", {})], WaitingInputs, None), {1, 2})

  /** A run becomes ready on one batch; attaching a later one leaves it ready under a manifest that names the first. */
  lemma ManifestMayStopDescribing()
    ensures var actions := [BatchAttached(FIRST_BATCH), ReadinessAsked(false, false), BatchAttached(LATER_BATCH)];
            var w := RunAll(WAITING_RUN, actions);
            && w.run.status.Ready? && w.run.manifest.Some? && InvoiceStatus in w.run.manifest.value
            && w.run.manifest.value[InvoiceStatus].batch == Some(1)
            && w.run.manifest.value != ManifestOf(w.run.inputs)
  {
    var a, b, c := BatchAttached(FIRST_BATCH), ReadinessAsked(false, false), BatchAttached(LATER_BATCH);
    var first, later := RunInput(InvoiceStatus, Some(1), "", {1}), RunInput(InvoiceStatus, Some(2), "", {2});
    assert [a, b, c][1..] == [b, c] && [b, c][1..] == [c] && [c][1..] == [];
    var w1 := Step(WAITING_RUN, a);
    assert w1.run.inputs == [first];
    UnblockedIff(w1.run, {1, 2}, false, false);
    var w2 := Step(w1, b);
    assert w2.run.status.Ready? && w2.run.manifest == Some(ManifestOf([first]));
    assert 1 in {1, 2} && 2 in {1, 2};
    ManifestAt([first], 0);
    AttachKeepsDescriptionIff(w2.run, LATER_BATCH, {1, 2});
    hide ManifestOf, Evaluate, Attach;
    assert RunAll(w2, [c]) == RunAll(Step(w2, c), []);
    assert RunAll(w1, [b, c]) == RunAll(w2, [c]);
  }

  // ---------------------------------------------------------------- as it runs

  class RunRow {
    var run: Run

    constructor (domains: seq<Domain>)
      ensures |run.inputs| == |domains| && run.status.WaitingInputs? && run.manifest.None?
      ensures forall k | 0 <= k < |domains| :: run.inputs[k] == RunInput(domains[k], None, "", {})
    {
      run := Run(seq(|domains|, k requires 0 <= k < |domains| => RunInput(domains[k], None, "", {})),
                 WaitingInputs, None);
    }

    method AttachBatch(b: Batch, committed: set<nat>) returns (attached: bool)
      modifies this
      ensures run == Attach(old(run), b, committed)
      ensures attached <==> b.id in committed && InputFor(old(run).inputs, b.domain, 0).Some?
    {
      if b.id !in committed {
        return false;
      }
      var found := InputFor(run.inputs, b.domain, 0);
      if found == None {
        return false;
      }
      var x := run.inputs[found.value];
      x := x.(batch := Some(b.id), watermark := b.watermark);
      x := x.(coverage := b.coverage);
      run := run.(inputs := run.inputs[found.value := x]);
      return true;
    }

    /** Domains without a committed batch come first, then open issues, then batches without coverage. */
    method ReadinessBlockers(committed: set<nat>, identityIssue: bool, reconciliationIssue: bool)
      returns (blockers: seq<Blocker>)
      ensures blockers == Blockers(run, committed, identityIssue, reconciliationIssue)
    {
      hide Waiting, Uncovered;
      blockers := WaitingDomains(committed);
      if identityIssue {
        blockers := blockers + [UnresolvedIdentityBlocks];
      }
      if reconciliationIssue {
        blockers := blockers + [ReconciliationIssueBlocks];
      }
      var uncovered := UncoveredDomains(committed);
      blockers := blockers + uncovered;
    }

    method WaitingDomains(committed: set<nat>) returns (blockers: seq<Blocker>)
      ensures blockers == Waiting(run.inputs, committed)
    {
      blockers := [];
      var k := 0;
      while k < |run.inputs|
        invariant k <= |run.inputs| && blockers == Waiting(run.inputs[..k], committed)
      {
        assert run.inputs[..k + 1][..k] == run.inputs[..k];
        if !Satisfied(run.inputs[k], committed) {
          blockers := blockers + [WaitingFor(run.inputs[k].domain)];
        }
        k := k + 1;
      }
      assert run.inputs[..k] == run.inputs;
    }

    method UncoveredDomains(committed: set<nat>) returns (blockers: seq<Blocker>)
      ensures blockers == Uncovered(run.inputs, committed)
    {
      blockers := [];
      var k := 0;
      while k < |run.inputs|
        invariant k <= |run.inputs| && blockers == Uncovered(run.inputs[..k], committed)
      {
        assert run.inputs[..k + 1][..k] == run.inputs[..k];
        if Satisfied(run.inputs[k], committed) && run.inputs[k].coverage == {} {
          blockers := blockers + [MissingCoverage(run.inputs[k].domain)];
        }
        k := k + 1;
      }
      assert run.inputs[..k] == run.inputs;
    }

    method EvaluateReadiness(committed: set<nat>, identityIssue: bool, reconciliationIssue: bool)
      modifies this
      ensures run == Evaluate(old(run), committed, identityIssue, reconciliationIssue)
    {
      if run.status != WaitingInputs {
        return;
      }
      var blockers := ReadinessBlockers(committed, identityIssue, reconciliationIssue);
      if blockers != [] {
        return;
      }
      run := run.(manifest := Some(ManifestOf(run.inputs)));
      run := run.(status := Ready);
    }
  }
}
