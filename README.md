# goscan scan orchestration: ping sweep and DNS enumeration, in Dafny

This project models two parts of goscan's scan engine and proves properties about them.

The first part is the ping sweep (`ScanSweep`, `execSweep` and `workerSweep` in `core/scan/sweep.go`):
- The dispatcher accepts one kind of sweep, "PING".
- It picks stored targets with a selector: "ALL", "TO_ANALYZE", or a literal address.
- It starts one worker per picked target. Each worker's output file is named `ping_<address>`.
- Each worker registers its scan descriptor in the process-wide scan list (`ScansList`).
- The worker then reads the parsed nmap report and records one `AddHost(addr, "up", NEW)` for every host whose state is "up".
- Finally it sets the originating target's step to SWEEPED.
- Without a database, the dispatcher builds one transient IMPORTED target from the raw argument, and the worker writes nothing.

The second part is DNS enumeration (`EnumDNS` in `core/enum/dns.go`):
- It considers every port of the target that is "open".
- A port qualifies when its number is 53, or when its lower-cased service name contains "dns".
- Each qualifying port gets one nmap request, named `<address>_dns_nmap`, in folder "DNS", with arguments `-sV -Pn -sU -p53,<port>`.

Files:
- `seqs.dfy` (module `Seqs`): an order-preserving `Filter` and its lemmas.
- `strings.dfy` (module `Strings`): the parts of Go's `strings.ToLower`, `strings.Contains` and `%d` formatting the core uses.
- `model.dfy` (module `Model`): steps, targets, report hosts, and the `Store` class. The store holds the targets and records the `AddHost` calls it receives.
- `sweep.dfy` (module `Sweep`): selection, job construction, report ingestion, the `Registry` class (`ScansList`), and the worker and dispatcher methods.
- `dns.dfy` (module `Enum`): the DNS eligibility test, the request format, and `EnumDns`.

Collaborators whose code is not part of this model become inputs, or calls that are only recorded:
- Whether a database exists is the store's constant `available` (Go's `IsDBAvailable`).
- The nmap run and `ParseOutput` become a map from output file to parsed report. A file missing from the map parses to a nil report.
- The sweep's nmap argument string (`Const_NMAP_SWEEP`) is a parameter.
- `GetPorts` and `GetService` are given as the port list, with each port's service name.
- The `runNmap` calls of `EnumDNS` are returned as a list.

## Model

| member | source | states |
|---|---|---|
| `Sweep.SweepConfigFor` | goscan/core/scan/sweep.go:15-24 | the kind is known iff it is exactly "PING"; PING scans are named "ping", filed under folder "sweep" and file prefix "ping", with the configured sweep arguments |
| `Sweep.ScanSweep` | goscan/core/scan/sweep.go:13-25 | an unknown kind returns None, starts no job, adds no registry entry and leaves targets and host calls unchanged; "PING" returns exactly the jobs `execSweep` plans, reports a panic iff some started job's report has an address-less up-host, and with no panic registers one descriptor per job, sweeps the job addresses and records their host writes |
| `Sweep.SelectionIff` | goscan/core/scan/sweep.go:42-44 | a stored target gets a worker iff the selector is "ALL", or it is "TO_ANALYZE" and the target's step is IMPORTED, or it equals the target's address |
| `Sweep.SelectionOrder` | goscan/core/scan/sweep.go:37-48 | selection preserves store order: selecting from a concatenation is the concatenation of the selections |
| `Sweep.SelectAll` | goscan/core/scan/sweep.go:42 | "ALL" selects every stored target, whatever its step |
| `Sweep.SelectAbsentAddress` | goscan/core/scan/sweep.go:36-49 | with a database, a literal address that no stored target has selects nothing; no target is synthesised |
| `Sweep.PlannedJobsIff` | goscan/core/scan/sweep.go:37-48 | with a database, a target has a job iff it is stored and selected; every job has the configured name, folder and arguments, and file `file + "_" + its address` |
| `Sweep.DispatchJobs` | goscan/core/scan/sweep.go:27-50 | the dispatch loop yields the planned jobs in store order; without a database, exactly one job, whose target is the raw argument with step IMPORTED and whose file is `file + "_" + argument`, and the stored targets play no part |
| `Sweep.JobTargetStored` | goscan/core/scan/sweep.go:36-47 | with a database, every dispatched job's target address is stored |
| `Sweep.IngestAppend` | goscan/core/scan/sweep.go:67-77 | ingesting a report in two parts: the second part is read only if the first did not panic, and the discovered addresses concatenate in report order |
| `Sweep.IngestPanicsIff` | goscan/core/scan/sweep.go:69-70 | the host loop panics iff some up-host has no address (Go's `Addresses[0]`) |
| `Sweep.IngestUpHosts` | goscan/core/scan/sweep.go:64-78 | without a panic, the discovered addresses are the first address of each up-host, one per up-host, in report order; hosts in any other state contribute nothing |
| `Sweep.IngestHosts` | goscan/core/scan/sweep.go:64-78 | the host loop: its discovered addresses and panic flag are exactly the ingestion of the report; with a database it records `AddHost(addr, "up", NEW)` for each discovered address, in order, and nothing else; targets are untouched |
| `Sweep.WorkerSweep` | goscan/core/scan/sweep.go:55-87 | appends exactly one descriptor carrying the target's address; the discovered addresses are the ingestion of the report (none for a nil report); with a database, the host writes are `AddHost(addr, "up", NEW)` for each discovered address, in order, and the target's stored record becomes SWEEPED whatever its step unless the loop panicked; without a database, no host write and no target change |
| `Sweep.RunWorkers` | goscan/core/scan/sweep.go:32-47 | running the started workers one after the other: a panic happens iff some job's report has an address-less up-host; otherwise one registry entry per job in job order, the job addresses swept, and the host writes of all workers concatenated in job order |
| `Sweep.AnyPanicsIff` | goscan/core/scan/sweep.go:67-70 | some worker of a job list panics iff some job's report has a panicking host loop |
| `Sweep.ExecSweep` | goscan/core/scan/sweep.go:27-50 | dispatch followed by its workers: the jobs are the planned ones for the state before the call, and the registry, targets and host writes are as RunWorkers states |
| `Sweep.SweepPostState` | goscan/core/scan/sweep.go:81-86 | with unique stored addresses, a selected target becomes SWEEPED whatever its step; every other target keeps its step, and every address is unchanged |
| `Sweep.ToAnalyzeScenario` | goscan/core/scan/sweep.go:36-86 | TO_ANALYZE over {192.168.1.1 IMPORTED, 192.168.1.2 SWEEPED} starts one job, for 192.168.1.1, and sweeps only it; a report with two up hosts and one down host gives exactly two `AddHost` calls, in report order |
| `Sweep.Registry.Register` | goscan/core/scan/sweep.go:58 | the scan list grows by exactly the one descriptor; earlier entries are unchanged |
| `Model.Store.AddHost` | goscan/core/scan/sweep.go:72 | records one `AddHost` call at the end of the call log and leaves targets alone |
| `Model.Store.Save` | goscan/core/scan/sweep.go:84 | the record stored under the saved target's address takes the saved value; the other records and the host calls are unchanged |
| `Strings.ToLower` | goscan/core/enum/dns.go:21 | the result has the input's length; each upper-case ASCII letter becomes its lower-case letter, every other character is kept, and no upper-case ASCII letter remains |
| `Strings.LowerChar` | goscan/core/enum/dns.go:21 | an upper-case ASCII letter maps to its lower-case letter; every other character is unchanged |
| `Strings.ContainsIff` | goscan/core/enum/dns.go:21 | `Contains(s, sub)` iff `sub` occurs in `s` at some index |
| `Strings.NatToDecimal` | goscan/core/enum/dns.go:29 | the decimal form is non-empty, all digits, and has no leading zero |
| `Strings.IntToDecimalForm` | goscan/core/enum/dns.go:29 | the `%d` form of any int is digits with no leading zero, after a minus sign exactly when the int is negative |
| `Strings.IntToDecimalRoundTrip` | goscan/core/enum/dns.go:29 | reading back the `%d` form of any int gives the int |
| `Enum.EnumDns` | goscan/core/enum/dns.go:10-34 | without a database, no request; otherwise exactly the requests for the eligible ports, in port order |
| `Enum.DnsEligibleIff` | goscan/core/enum/dns.go:18-21 | a port qualifies iff its status is exactly "open" and either its number is 53 or its service name contains "dns" in any letter case |
| `Enum.DnsEligibleExamples` | goscan/core/enum/dns.go:18-21 | "DNS", "Dns" and "mdns" on open ports qualify, and so does open port 53; closed or filtered port 53 and an open "http" port do not |
| `Enum.DnsRunsMembership` | goscan/core/enum/dns.go:16-31 | the request for a port number is issued iff some returned port with that number qualifies |
| `Enum.DnsRunsOrder` | goscan/core/enum/dns.go:16-32 | one request per eligible port, in port order: the requests for concatenated port lists are the concatenated requests, and the count equals the number of eligible ports |
| `Enum.DnsRunsShape` | goscan/core/enum/dns.go:28-30 | every request has name and file `address + "_dns_nmap"`, folder "DNS" and the target's address; its arguments are "-sV -Pn -sU -p53," followed by the `%d` form of its own port's number: an optional minus sign, then digits with no leading zero, reading back as that number |
| `Enum.DnsArgsInjective` | goscan/core/enum/dns.go:29 | different port numbers give different arguments |
| `Enum.DnsArgsPort53` | goscan/core/enum/dns.go:29 | port 53 is scanned with "-sV -Pn -sU -p53,53" |

Three behaviours of the code differ from what a reader of the scan engine might expect; the model follows the code:
- **Literal address not in the store.** One might expect such an address to be scanned anyway, with a synthesised target. With a database, the code selects nothing (`Sweep.SelectAbsentAddress`). A target is synthesised only when there is no database.
- **Step monotonicity.** One might expect a target's step never to go backwards. The worker sets SWEEPED whatever the previous step, so a target at a later stage that is swept again with "ALL" goes back to SWEEPED (`Sweep.WorkerSweep`).
- **Host upserts.** One might expect repeated `AddHost` calls for one address to be idempotent. `AddHost`'s implementation is not part of this model, so the model only records the calls.

## Left out

- Concurrency: `go workerSweep` and `model.Mutex`. Workers run one after another, after dispatch, in dispatch order. Interleavings and the unguarded append to `ScansList` are not modelled.
- Logging: `LogInfo`, `LogError` and `LogWarning`. An unknown kind shows up only as the `None` result of `ScanSweep`. Up-hosts found without a database show up only as the worker's `discovered` output.
- Running nmap (`RunNmap`, `runNmap`): the model's input is what `ParseOutput` returns. A failed run and a nil report are the same here: a report with no hosts.
- `NewScan`: its code is not part of this model. The descriptor is assumed to keep the name, address, folder, file and arguments it is given.
- `AddHost` deduplication, and what `Save` does beyond updating the record in memory (gorm keys, write errors). The store is keyed by target address.
- Database availability is one constant for the whole process. `IsDBAvailable` is not re-read between calls.
- Step names: steps form a closed enumeration. The string forms of `model.IMPORTED`, `NEW` and `SWEEPED` are assumed to be distinct. `Other(tag)` stands for any other step; a tag spelling one of those three names is not excluded, and such a value is a different step from `Imported`, `New` or `Sweeped` (TO_ANALYZE does not select `Other("IMPORTED")`).
- `Strings.ToLower`: maps only ASCII letters, not all of Unicode. No other character lower-cases to 'd', 'n' or 's', so the DNS test is unaffected.
- Sweep.RunWorkers: after a panic, the contract states only that a panic happened. In Go, the panic ends the process and abandons the other workers. What the panicking worker itself leaves behind is stated by `Sweep.WorkerSweep`.
- Sweep.ExecSweep: same as `Sweep.RunWorkers`. Nothing is stated about registry or store contents after a worker panic.
- Sweep.ScanSweep: same as `Sweep.ExecSweep`, which its "PING" branch runs. After a worker panic only the panic itself is stated.
- `core/cli/menu.go`, `core/utils/animations.go`, `core/scan/advanced_scans.go` and `main.go` are not part of this model. They are interactive menus, terminal animation, one-shot nmap command wrappers, and process start-up.
