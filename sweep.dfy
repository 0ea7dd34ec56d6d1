/**
  The ping-sweep dispatcher and worker of the scan package (`ScanSweep`, `execSweep`,
  `workerSweep`). The dispatcher selects stored targets and starts one worker per selected
  target; here the workers run one after another, in the order they were dispatched.
 */
module Sweep {
  import opened Model
  import opened Seqs

  // ---------------------------------------------------------------------------
  // Dispatch

  /** The fixed parameters `ScanSweep` hands to `execSweep` for one kind of sweep. */
  datatype SweepConfig = SweepConfig(name: string, folder: string, file: string, args: string)

  /**
    The switch of `ScanSweep`: "PING" (and nothing else, not even "ping") is a known kind; its
    scans are named "ping", written to folder "sweep", and run with the configured sweep arguments.
   */
  function SweepConfigFor(kind: string, sweepArgs: string): (r: Option<SweepConfig>)
    ensures r.Some? <==> kind == "PING"
    ensures r.Some? ==> r.value.name == r.value.file == "ping" && r.value.folder == "sweep"
    ensures r.Some? ==> r.value.args == sweepArgs
  {
    match kind
    case "PING" => Some(SweepConfig("ping", "sweep", "ping", sweepArgs))
    case _ => None
  }

  /** One worker start: `workerSweep(name, &temp, folder, fname, nmapArgs)`. */
  datatype Job = Job(name: string, target: Target, folder: string, file: string, args: string)

  /** The selection rule of `execSweep` for one stored target. */
  predicate Selected(selector: string, t: Target) {
    selector == "ALL" || (selector == "TO_ANALYZE" && t.step == Imported) || selector == t.address
  }

  function SelectedBy(selector: string): Target -> bool {
    t => Selected(selector, t)
  }

  /** The stored targets that get a worker, in store order. */
  function Selection(selector: string, targets: seq<Target>): seq<Target> {
    Filter(SelectedBy(selector), targets)
  }

  /** The job for one target: its output file is `file + "_" + address`. */
  function JobFor(cfg: SweepConfig, t: Target): Job {
    Job(cfg.name, t, cfg.folder, cfg.file + "_" + t.address, cfg.args)
  }

  function JobsFor(cfg: SweepConfig, targets: seq<Target>): seq<Job> {
    seq(|targets|, k requires 0 <= k < |targets| => JobFor(cfg, targets[k]))
  }

  /**
    The jobs `execSweep` starts. Without a database it synthesises one IMPORTED target from the
    raw argument, whatever it is; with one, it takes the selected stored targets.
   */
  function PlannedJobs(available: bool, targets: seq<Target>, cfg: SweepConfig, selector: string): seq<Job> {
    if !available then [JobFor(cfg, Target(selector, Imported))]
    else JobsFor(cfg, Selection(selector, targets))
  }

  /** A stored target is selected exactly when the selection rule accepts it. */
  lemma SelectionIff(selector: string, targets: seq<Target>, t: Target)
    ensures t in Selection(selector, targets) <==> t in targets && Selected(selector, t)
  {
    FilterMembership(SelectedBy(selector), targets, t);
  }

  /** Selection keeps store order: selecting from a concatenation concatenates the selections. */
  lemma SelectionOrder(selector: string, a: seq<Target>, b: seq<Target>)
    ensures Selection(selector, a + b) == Selection(selector, a) + Selection(selector, b)
  {
    FilterAppend(SelectedBy(selector), a, b);
  }

  /** "ALL" selects every stored target, whatever its step. */
  lemma SelectAll(targets: seq<Target>)
    ensures Selection("ALL", targets) == targets
  {
    FilterKeepsAll(SelectedBy("ALL"), targets);
  }

  /** A literal address that is not stored selects nothing; no target is synthesised for it. */
  lemma SelectAbsentAddress(selector: string, targets: seq<Target>)
    requires selector != "ALL" && selector != "TO_ANALYZE"
    requires !Stored(targets, selector)
    ensures Selection(selector, targets) == []
  {
    FilterDropsAll(SelectedBy(selector), targets);
  }

  /**
    With a database, the targets given a job are exactly the selected stored targets, and every
    job is named and filed from the configuration and its own target's address.
   */
  lemma PlannedJobsIff(targets: seq<Target>, cfg: SweepConfig, selector: string, t: Target)
    ensures var jobs := PlannedJobs(true, targets, cfg, selector);
      (exists k :: 0 <= k < |jobs| && jobs[k].target == t) <==> t in targets && Selected(selector, t)
    ensures var jobs := PlannedJobs(true, targets, cfg, selector);
      forall k :: 0 <= k < |jobs| ==>
        jobs[k].name == cfg.name && jobs[k].folder == cfg.folder && jobs[k].args == cfg.args &&
        jobs[k].file == cfg.file + "_" + jobs[k].target.address
  {
    var sel := Selection(selector, targets);
    var jobs := PlannedJobs(true, targets, cfg, selector);
    SelectionIff(selector, targets, t);
    if t in sel {
      var k :| 0 <= k < |sel| && sel[k] == t;
      assert jobs[k].target == t;
    }
  }

  /** `execSweep`'s loop: the jobs it would start, in the order it starts them. */
  method DispatchJobs(store: Store, cfg: SweepConfig, selector: string) returns (jobs: seq<Job>)
    ensures jobs == PlannedJobs(store.available, store.targets, cfg, selector)
    ensures !store.available ==>
      |jobs| == 1 && jobs[0].target == Target(selector, Imported) && jobs[0].file == cfg.file + "_" + selector
  {
    if !store.available {
      var temp := Target(selector, Imported);
      jobs := [Job(cfg.name, temp, cfg.folder, cfg.file + "_" + selector, cfg.args)];
      return;
    }
    var targets := store.targets;
    jobs := [];
    for i := 0 to |targets|
      invariant jobs == JobsFor(cfg, Selection(selector, targets[..i]))
    {
      var h := targets[i];
      assert targets[..i + 1][..i] == targets[..i];
      if selector == "ALL" || (selector == "TO_ANALYZE" && h.step == Imported) || selector == h.address {
        jobs := jobs + [Job(cfg.name, h, cfg.folder, cfg.file + "_" + h.address, cfg.args)];
      }
    }
    assert targets[..|targets|] == targets;
  }

  // ---------------------------------------------------------------------------
  // Report ingestion

  /** A report host whose liveness state is exactly "up". */
  predicate IsUp(h: ReportHost) {
    h.state == "up"
  }

  /**
    What the worker's host loop discovers: the first address of each up-host, in report order.
    An up-host with no address stops the loop (indexing `Addresses[0]` panics in Go).
   */
  datatype Ingestion = Ingestion(addresses: seq<string>, panicked: bool)

  function Ingest(hosts: seq<ReportHost>): Ingestion {
    if hosts == [] then Ingestion([], false)
    else
      var before := Ingest(hosts[..|hosts| - 1]);
      var h := hosts[|hosts| - 1];
      if before.panicked || !IsUp(h) then before
      else if h.addresses == [] then Ingestion(before.addresses, true)
      else Ingestion(before.addresses + [h.addresses[0]], false)
  }

  /** The parsed report of each output file; a file missing here parses to a nil report. */
  type Reports = map<string, seq<ReportHost>>

  /** `ParseOutput` for the scan writing `file`. */
  function ParseOutput(reports: Reports, file: string): Option<seq<ReportHost>> {
    if file in reports then Some(reports[file]) else None
  }

  /** A nil report is read as a report without hosts. */
  function ReportHosts(report: Option<seq<ReportHost>>): seq<ReportHost> {
    if report.Some? then report.value else []
  }

  /** The store calls made for discovered addresses: `AddHost(addr, "up", NEW)` each. */
  function HostCalls(addresses: seq<string>): (r: seq<HostCall>)
    ensures |r| == |addresses|
    ensures forall k :: 0 <= k < |addresses| ==> r[k] == AddHost(addresses[k], "up", New)
  {
    if addresses == [] then []
    else HostCalls(addresses[..|addresses| - 1]) + [AddHost(addresses[|addresses| - 1], "up", New)]
  }

  /** Ingestion of a report split in two: the second part is read only if the first did not panic. */
  lemma {:induction false} IngestAppend(a: seq<ReportHost>, b: seq<ReportHost>)
    ensures Ingest(a + b) ==
      if Ingest(a).panicked then Ingest(a)
      else Ingestion(Ingest(a).addresses + Ingest(b).addresses, Ingest(b).panicked)
    decreases |b|
  {
    if b == [] {
      assert a + b == a;
      assert Ingest(a).addresses + [] == Ingest(a).addresses;
    } else {
      var b' := b[..|b| - 1];
      assert (a + b)[..|a + b| - 1] == a + b';
      IngestAppend(a, b');
      if !Ingest(a).panicked && !Ingest(b').panicked && IsUp(b[|b| - 1]) && b[|b| - 1].addresses != [] {
        ConcatAssoc(Ingest(a).addresses, Ingest(b').addresses, [b[|b| - 1].addresses[0]]);
      }
    }
  }

  /** The loop panics exactly when some up-host lists no address. */
  lemma {:induction false} IngestPanicsIff(hosts: seq<ReportHost>)
    ensures Ingest(hosts).panicked <==>
      exists i :: 0 <= i < |hosts| && IsUp(hosts[i]) && hosts[i].addresses == []
    decreases |hosts|
  {
    if hosts != [] {
      var init := hosts[..|hosts| - 1];
      IngestPanicsIff(init);
      if exists i :: 0 <= i < |init| && IsUp(init[i]) && init[i].addresses == [] {
        var i :| 0 <= i < |init| && IsUp(init[i]) && init[i].addresses == [];
        assert hosts[i] == init[i];
      }
      if exists i :: 0 <= i < |hosts| && IsUp(hosts[i]) && hosts[i].addresses == [] {
        var i :| 0 <= i < |hosts| && IsUp(hosts[i]) && hosts[i].addresses == [];
        if i < |init| {
          assert init[i] == hosts[i];
        }
      }
    }
  }

  /**
    Without a panic, the discovered addresses are the first addresses of the up-hosts, one per
    up-host, in report order; hosts in any other state contribute nothing.
   */
  lemma {:induction false} IngestUpHosts(hosts: seq<ReportHost>)
    requires !Ingest(hosts).panicked
    ensures var up := Filter(IsUp, hosts);
      |Ingest(hosts).addresses| == |up| &&
      forall k :: 0 <= k < |up| ==> up[k].addresses != [] && Ingest(hosts).addresses[k] == up[k].addresses[0]
    decreases |hosts|
  {
    if hosts != [] {
      var init := hosts[..|hosts| - 1];
      IngestUpHosts(init);
    }
  }

  // ---------------------------------------------------------------------------
  // Worker

  /** A scan descriptor as `NewScan(name, address, folder, file, nmapArgs)` builds it. */
  datatype Scan = Scan(name: string, target: string, folder: string, file: string, args: string)

  function NewScan(job: Job): Scan {
    Scan(job.name, job.target.address, job.folder, job.file, job.args)
  }

  /** `ScansList`: every scan descriptor started in this process, in start order. */
  class Registry {
    var scans: seq<Scan>

    constructor ()
      ensures scans == []
    {
      scans := [];
    }

    method Register(s: Scan)
      modifies this
      ensures scans == old(scans) + [s]
    {
      scans := scans + [s];
    }
  }

  /**
    The host loop of `workerSweep`: for each up-host, in report order, its first address is
    discovered and, with a database, written with `AddHost(addr, "up", NEW)`; an up-host without
    an address panics.
   */
  method IngestHosts(store: Store, hosts: seq<ReportHost>) returns (discovered: seq<string>, panicked: bool)
    modifies store
    ensures Ingest(hosts) == Ingestion(discovered, panicked)
    ensures store.targets == old(store.targets)
    ensures store.hostCalls == old(store.hostCalls) + (if store.available then HostCalls(discovered) else [])
  {
    discovered, panicked := [], false;
    for i := 0 to |hosts|
      invariant Ingest(hosts[..i]) == Ingestion(discovered, false)
      invariant store.targets == old(store.targets)
      invariant store.hostCalls == old(store.hostCalls) + (if store.available then HostCalls(discovered) else [])
    {
      var host := hosts[i];
      assert hosts[..i + 1][..i] == hosts[..i];
      if host.state == "up" {
        if host.addresses == [] {
          IngestAppend(hosts[..i + 1], hosts[i + 1..]);
          assert hosts[..i + 1] + hosts[i + 1..] == hosts;
          panicked := true;
          return;
        }
        var addr := host.addresses[0];
        if store.available {
          store.AddHost(addr, "up", New);
        }
        assert (discovered + [addr])[..|discovered|] == discovered;
        assert HostCalls(discovered + [addr]) == HostCalls(discovered) + [AddHost(addr, "up", New)];
        discovered := discovered + [addr];
      }
    }
    assert hosts[..|hosts|] == hosts;
  }

  /**
    `workerSweep` for one job, given what parsing its output yielded (`None` for a nil report).
    It registers the scan, ingests the up-hosts (persisting them only with a database), then
    marks the target SWEEPED whatever its previous step. A panic on an address-less up-host
    leaves what was done before it in place and skips the step update.
   */
  method WorkerSweep(store: Store, registry: Registry, job: Job, report: Option<seq<ReportHost>>)
    returns (discovered: seq<string>, panicked: bool)
    requires store.available ==> Stored(store.targets, job.target.address)
    modifies store, registry
    ensures registry.scans == old(registry.scans) + [NewScan(job)]
    ensures Ingest(ReportHosts(report)) == Ingestion(discovered, panicked)
    ensures store.hostCalls == old(store.hostCalls) + (if store.available then HostCalls(discovered) else [])
    ensures store.targets ==
      if store.available && !panicked then SavedTargets(old(store.targets), job.target.(step := Sweeped))
      else old(store.targets)
  {
    var s := NewScan(job);
    registry.Register(s);

    discovered, panicked := [], false;
    if report.Some? {
      discovered, panicked := IngestHosts(store, report.value);
      if panicked {
        return;
      }
    }

    if store.available {
      var h := job.target.(step := Sweeped);
      store.Save(h);
    }
  }

  // ---------------------------------------------------------------------------
  // Dispatch followed by the workers it starts

  /** The step of every stored target whose address was swept becomes SWEEPED. */
  function SweptTargets(targets: seq<Target>, addresses: set<string>): seq<Target> {
    seq(|targets|, i requires 0 <= i < |targets| =>
      if targets[i].address in addresses then targets[i].(step := Sweeped) else targets[i])
  }

  function JobAddresses(jobs: seq<Job>): set<string> {
    set k | 0 <= k < |jobs| :: jobs[k].target.address
  }

  function JobsScans(jobs: seq<Job>): seq<Scan> {
    seq(|jobs|, k requires 0 <= k < |jobs| => NewScan(jobs[k]))
  }

  /** The store calls of the workers for `jobs`, one worker after the other. */
  function JobsHostCalls(jobs: seq<Job>, reports: Reports): seq<HostCall> {
    if jobs == [] then []
    else
      JobsHostCalls(jobs[..|jobs| - 1], reports) +
      HostCalls(Ingest(ReportHosts(ParseOutput(reports, jobs[|jobs| - 1].file))).addresses)
  }

  /** The worker for `job` panics on its report. */
  predicate JobPanics(job: Job, reports: Reports) {
    Ingest(ReportHosts(ParseOutput(reports, job.file))).panicked
  }

  /** Some worker for `jobs` panics. */
  predicate AnyPanics(jobs: seq<Job>, reports: Reports) {
    jobs != [] && (AnyPanics(jobs[..|jobs| - 1], reports) || JobPanics(jobs[|jobs| - 1], reports))
  }

  /** AnyPanics holds exactly when one of the jobs' workers panics. */
  lemma {:induction false} AnyPanicsIff(jobs: seq<Job>, reports: Reports)
    ensures AnyPanics(jobs, reports) <==> exists k :: 0 <= k < |jobs| && JobPanics(jobs[k], reports)
    decreases |jobs|
  {
    if jobs != [] {
      var init := jobs[..|jobs| - 1];
      AnyPanicsIff(init, reports);
      if exists k :: 0 <= k < |init| && JobPanics(init[k], reports) {
        var k :| 0 <= k < |init| && JobPanics(init[k], reports);
        assert jobs[k] == init[k];
      }
      if exists k :: 0 <= k < |jobs| && JobPanics(jobs[k], reports) {
        var k :| 0 <= k < |jobs| && JobPanics(jobs[k], reports);
        if k < |init| {
          assert init[k] == jobs[k];
        }
      }
    }
  }

  predicate UniqueAddresses(targets: seq<Target>) {
    forall i, j :: 0 <= i < j < |targets| ==> targets[i].address != targets[j].address
  }

  /** Under unique addresses, a target whose address received a job was itself selected. */
  lemma SweptAddressSelected(targets: seq<Target>, cfg: SweepConfig, selector: string, i: int)
    requires UniqueAddresses(targets) && 0 <= i < |targets|
    requires targets[i].address in JobAddresses(PlannedJobs(true, targets, cfg, selector))
    ensures Selected(selector, targets[i])
  {
    var sel := Selection(selector, targets);
    var jobs := PlannedJobs(true, targets, cfg, selector);
    var k :| 0 <= k < |jobs| && jobs[k].target.address == targets[i].address;
    SelectionIff(selector, targets, sel[k]);
    var j :| 0 <= j < |targets| && targets[j] == sel[k];
    assert j == i;
  }

  /**
    After all workers of a sweep ran, with addresses unique in the store: a target is SWEEPED
    when it was selected, and keeps its step otherwise.
   */
  lemma SweepPostState(targets: seq<Target>, cfg: SweepConfig, selector: string, i: int)
    requires UniqueAddresses(targets) && 0 <= i < |targets|
    ensures var after := SweptTargets(targets, JobAddresses(PlannedJobs(true, targets, cfg, selector)));
      |after| == |targets| && after[i].address == targets[i].address &&
      after[i].step == if Selected(selector, targets[i]) then Sweeped else targets[i].step
  {
    var sel := Selection(selector, targets);
    var jobs := PlannedJobs(true, targets, cfg, selector);
    var t := targets[i];
    SelectionIff(selector, targets, t);
    if Selected(selector, t) {
      var k :| 0 <= k < |sel| && sel[k] == t;
      assert jobs[k].target.address == t.address;
    } else if t.address in JobAddresses(jobs) {
      SweptAddressSelected(targets, cfg, selector, i);
    }
  }

  /** One more worker's save extends the swept set by its target's address. */
  lemma SweptTargetsSave(targets: seq<Target>, swept: set<string>, t: Target)
    ensures SavedTargets(SweptTargets(targets, swept), t.(step := Sweeped)) ==
      SweptTargets(targets, swept + {t.address})
  {
  }

  /** Sweeping changes no address, so whatever was stored stays stored. */
  lemma SweptTargetsStored(targets: seq<Target>, swept: set<string>, address: string)
    requires Stored(targets, address)
    ensures Stored(SweptTargets(targets, swept), address)
  {
    var i :| 0 <= i < |targets| && targets[i].address == address;
    assert SweptTargets(targets, swept)[i].address == address;
  }

  lemma JobsPrefixStep(jobs: seq<Job>, reports: Reports, k: int)
    requires 0 <= k < |jobs|
    ensures JobsScans(jobs[..k + 1]) == JobsScans(jobs[..k]) + [NewScan(jobs[k])]
    ensures JobAddresses(jobs[..k + 1]) == JobAddresses(jobs[..k]) + {jobs[k].target.address}
    ensures AnyPanics(jobs[..k + 1], reports) == (AnyPanics(jobs[..k], reports) || JobPanics(jobs[k], reports))
    ensures JobsHostCalls(jobs[..k + 1], reports) ==
      JobsHostCalls(jobs[..k], reports) + HostCalls(Ingest(ReportHosts(ParseOutput(reports, jobs[k].file))).addresses)
  {
    assert jobs[..k + 1][..k] == jobs[..k];
  }

  /** Every job's target is a stored target (always so with a database, see JobTargetStored). */
  predicate JobsStored(targets: seq<Target>, jobs: seq<Job>) {
    forall k :: 0 <= k < |jobs| ==> Stored(targets, jobs[k].target.address)
  }

  /**
    The workers for `jobs`, run one after the other in dispatch order; `reports` gives what
    parsing each output file yields (see `Reports`). A worker panic ends the process, so no
    later worker runs.
   */
  method RunWorkers(store: Store, registry: Registry, jobs: seq<Job>, reports: Reports)
    returns (panicked: bool)
    requires store.available ==> JobsStored(store.targets, jobs)
    modifies store, registry
    ensures panicked == AnyPanics(jobs, reports)
    ensures !panicked ==> registry.scans == old(registry.scans) + JobsScans(jobs)
    ensures !panicked && store.available ==>
      store.targets == SweptTargets(old(store.targets), JobAddresses(jobs)) &&
      store.hostCalls == old(store.hostCalls) + JobsHostCalls(jobs, reports)
    ensures !store.available ==> store.targets == old(store.targets) && store.hostCalls == old(store.hostCalls)
  {
    ghost var targets0 := store.targets;
    panicked := false;
    var k := 0;
    while k < |jobs|
      invariant 0 <= k <= |jobs|
      invariant registry.scans == old(registry.scans) + JobsScans(jobs[..k])
      invariant store.available ==>
        store.targets == SweptTargets(targets0, JobAddresses(jobs[..k])) &&
        store.hostCalls == old(store.hostCalls) + JobsHostCalls(jobs[..k], reports)
      invariant !store.available ==> store.targets == targets0 && store.hostCalls == old(store.hostCalls)
      invariant !AnyPanics(jobs[..k], reports)
    {
      var job := jobs[k];
      if store.available {
        SweptTargetsStored(targets0, JobAddresses(jobs[..k]), job.target.address);
      }
      var discovered, p := WorkerSweep(store, registry, job, ParseOutput(reports, job.file));
      JobsPrefixStep(jobs, reports, k);
      if p {
        AnyPanicsIff(jobs, reports);
        panicked := true;
        return;
      }
      ConcatAssoc(old(registry.scans), JobsScans(jobs[..k]), [NewScan(job)]);
      if store.available {
        SweptTargetsSave(targets0, JobAddresses(jobs[..k]), job.target);
        ConcatAssoc(old(store.hostCalls), JobsHostCalls(jobs[..k], reports), HostCalls(discovered));
      }
      k := k + 1;
    }
    assert jobs[..|jobs|] == jobs;
  }

  /**
    `execSweep`: dispatch, then the workers it started. With a database every job's target is
    a stored one, so each worker's save hits a stored record.
   */
  method ExecSweep(store: Store, registry: Registry, cfg: SweepConfig, selector: string, reports: Reports)
    returns (jobs: seq<Job>, panicked: bool)
    modifies store, registry
    ensures jobs == PlannedJobs(store.available, old(store.targets), cfg, selector)
    ensures panicked == AnyPanics(jobs, reports)
    ensures !panicked ==> registry.scans == old(registry.scans) + JobsScans(jobs)
    ensures !panicked && store.available ==>
      store.targets == SweptTargets(old(store.targets), JobAddresses(jobs)) &&
      store.hostCalls == old(store.hostCalls) + JobsHostCalls(jobs, reports)
    ensures !store.available ==> store.targets == old(store.targets) && store.hostCalls == old(store.hostCalls)
  {
    jobs := DispatchJobs(store, cfg, selector);
    if store.available {
      forall k | 0 <= k < |jobs| ensures Stored(store.targets, jobs[k].target.address) {
        JobTargetStored(store.targets, cfg, selector, k);
      }
    }
    panicked := RunWorkers(store, registry, jobs, reports);
  }

  /** Every dispatched job's target address is stored. */
  lemma JobTargetStored(targets: seq<Target>, cfg: SweepConfig, selector: string, k: int)
    requires 0 <= k < |PlannedJobs(true, targets, cfg, selector)|
    ensures Stored(targets, PlannedJobs(true, targets, cfg, selector)[k].target.address)
  {
    var sel := Selection(selector, targets);
    SelectionIff(selector, targets, sel[k]);
  }

  /**
    `ScanSweep`: an unknown kind starts nothing and changes nothing; "PING" runs `execSweep`
    with the ping configuration. The result is the list of jobs started, or `None` for an
    unknown kind.
   */
  method ScanSweep(store: Store, registry: Registry, kind: string, target: string, sweepArgs: string,
                   reports: Reports)
    returns (r: Option<seq<Job>>, panicked: bool)
    modifies store, registry
    ensures r.None? <==> kind != "PING"
    ensures r.None? ==>
      !panicked && registry.scans == old(registry.scans) &&
      store.targets == old(store.targets) && store.hostCalls == old(store.hostCalls)
    ensures r.Some? ==>
      r.value == PlannedJobs(store.available, old(store.targets), SweepConfig("ping", "sweep", "ping", sweepArgs), target)
    ensures r.Some? ==> panicked == AnyPanics(r.value, reports)
    ensures r.Some? && !panicked ==> registry.scans == old(registry.scans) + JobsScans(r.value)
    ensures r.Some? && !panicked && store.available ==>
      store.targets == SweptTargets(old(store.targets), JobAddresses(r.value)) &&
      store.hostCalls == old(store.hostCalls) + JobsHostCalls(r.value, reports)
    ensures !store.available ==> store.targets == old(store.targets) && store.hostCalls == old(store.hostCalls)
  {
    var cfg := SweepConfigFor(kind, sweepArgs);
    if cfg.None? {
      return None, false;
    }
    var jobs;
    jobs, panicked := ExecSweep(store, registry, cfg.value, target, reports);
    r := Some(jobs);
  }

  /**
    A store holding 192.168.1.1 (IMPORTED) and 192.168.1.2 (SWEEPED), swept with TO_ANALYZE: one
    job, for 192.168.1.1; a report with 192.168.1.1 and 192.168.1.3 up and one host down gives two
    host writes; afterwards 192.168.1.1 is SWEEPED and 192.168.1.2 is untouched.
   */
  lemma ToAnalyzeScenario(cfg: SweepConfig)
    ensures var t1, t2 := Target("192.168.1.1", Imported), Target("192.168.1.2", Sweeped);
      var jobs := PlannedJobs(true, [t1, t2], cfg, "TO_ANALYZE");
      jobs == [JobFor(cfg, t1)] &&
      SweptTargets([t1, t2], JobAddresses(jobs)) == [t1.(step := Sweeped), t2]
    ensures var report := [ReportHost("up", ["192.168.1.1"]), ReportHost("down", ["192.168.1.9"]),
                           ReportHost("up", ["192.168.1.3", "aa:bb:cc:dd:ee:ff"])];
      HostCalls(Ingest(report).addresses) ==
        [AddHost("192.168.1.1", "up", New), AddHost("192.168.1.3", "up", New)]
  {
    var t1, t2 := Target("192.168.1.1", Imported), Target("192.168.1.2", Sweeped);
    assert [t1, t2][..1] == [t1];
    assert Selection("TO_ANALYZE", [t1]) == [t1] by {
      assert [t1][..0] == [];
    }
    var jobs := PlannedJobs(true, [t1, t2], cfg, "TO_ANALYZE");
    assert Selection("TO_ANALYZE", [t1, t2]) == [t1];
    assert jobs == [JobFor(cfg, t1)];
    assert JobAddresses(jobs) == {t1.address} by {
      assert jobs[0].target.address == t1.address;
    }
    var report := [ReportHost("up", ["192.168.1.1"]), ReportHost("down", ["192.168.1.9"]),
                   ReportHost("up", ["192.168.1.3", "aa:bb:cc:dd:ee:ff"])];
    assert report[..1][..0] == [];
    assert Ingest(report[..1]) == Ingestion(["192.168.1.1"], false);
    assert report[..2][..1] == report[..1];
    assert Ingest(report[..2]) == Ingestion(["192.168.1.1"], false);
    assert report[..2] == report[..|report| - 1];
    assert Ingest(report) == Ingestion(["192.168.1.1", "192.168.1.3"], false);
    var addrs := ["192.168.1.1", "192.168.1.3"];
    assert addrs[..1] == ["192.168.1.1"];
  }
}
