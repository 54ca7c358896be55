# Nomad Cloud Hypervisor driver: a verified model

The driver turns Nomad tasks into Cloud Hypervisor virtual machines. It keeps a
registry of VMs, hands each VM an IPv4 address, makes a TAP interface, helper
processes and a work directory for it on the host, and forwards host ports to
it with iptables rules in two chains that all tasks share. This project models
that life cycle and proves what it keeps, with every outside call allowed to
fail at every point. `dafny verify dfyconfig.toml` checks all of it.

## How it is organised

| file | what it models |
|---|---|
| `Text.dfy`, `Ipv4.dfy` | strings, numerals, dotted addresses and their parser |
| `Subnet.dfy`, `Pool.dfy` | prefix arithmetic, network configuration, address allocation |
| `Guest.dfy` | what a VM is told about its network: environment, cloud-init, kernel command line, hypervisor configuration |
| `Virtualizer.dfy` | the Cloud Hypervisor driver class: create and destroy with a rollback at each stage |
| `Creates.dfy` | every answer of a create: the stages it runs, the fault that stops it, what it registers |
| `Accounting.dfy`, `WorkDirs.dfy` | whole runs of that driver: addresses, processes, TAPs, work directories |
| `Chains.dfy`, `Layers.dfy`, `Controller.dfy` | rule sequences; the network controller's builds and teardowns |
| `Builds.dfy` | every answer of a build, and the rules it leaves, one by one |
| `Ledger.dfy`, `Retry.dfy`, `Forwarding.dfy` | interleaved builds and teardowns: conservation, retried teardown, first-match routing |
| `Plugin.dfy`, `System.dfy` | StartTask and DestroyTask, the whole-system invariant |
| `Tasks.dfy` | every answer of StartTask and DestroyTask, and what a started task's VM is made of |
| `Handles.dfy` | VMs that Nomad has no handle for; recovering a task |
| `Resources.dfy`, `Delivery.dfy`, `Reuse.dfy` | host resources and packets over whole runs of tasks; stranded rules whose address is handed out again |
| `Paths.dfy` | image path containment |
| `Vfio.dfy`, `Devices.dfy`, `Bindings.dfy` | VFIO binding and IOMMU groups, the manager's answers, and bindings over the life of VMs |
| `Base64.dfy`, `EnvFile.dfy` | the environment file as printed |
| `Shell.dfy`, `ShellQuotes.dfy`, `ShellLines.dfy`, `Sourcing.dfy` | the environment file as a shell reads it |
| `Mac.dfy`, `Monitor.dfy` | derived MAC addresses, the task monitor |

Where the source changes an object, a class with the same fields does it step
by step, and each method is proved to do what a function on values says; the
theorems are about those functions. `Creates`, `Builds`, `Tasks` and `Devices`
tell each of their answers from the request, the state and the faults alone,
without these functions. Outside calls are inputs: `Faults`,
`HostNet`, `BindFault`, `Tick` and their like say which of them fail, each
attempt at a call having an input of its own, so a theorem for all inputs is a
theorem for all patterns of these failures. Methods that hold the driver's lock
are one step each.

The rules in the two chains are remembered with history variables
(`Ledger.Books`): the specifications of live tasks, and the orphans, which are
rules that failed builds and failed deletions left and nobody will delete.
`Foreign` rules are somebody else's; they are taken not to match forwarded
packets.

## What the code does that its documentation does not say

- `DestroyTask` deletes the store entry under the domain name, while
  `StartTask` stores it under the task ID, so the entry stays, although the
  comment on `WaitTask` (virt/driver.go:327-328) says no state should exist
  after `DestroyTask`. `WholeSystem.HandleRemovedIff` has the exact condition,
  `WholeSystem.StartedIdsStayTaken` the consequence.
- The teardown counts on being retried until it succeeds
  (chnet/controller.go:467-472), but a destroy that reached the virtualizer
  cannot be: the second one is refused before the teardown
  (`WholeSystem.SecondDestroyRefused`). What retries of the teardown itself
  achieve is in `Retry`.
- A build that fails part-way returns no rules, so what it appended stays in the
  chains and leads to an address that is free again
  (`WholeSystem.FailedBuildStrandsRules`). That takes no iptables error: a second
  host address on no interface is enough
  (`NetController.UnknownInterfaceLeavesRules`, exactly when by
  `NetController.StopsPartWayIff`). Once a later task is given the address, the
  stranded rule leads to that task's VM (`Reuse.StrandedRuleReusedIff`).
- Without iptables a teardown deletes nothing and reports success
  (`Retry.RetryConvergesIff`).
- A build and its full teardown are not always the identity: a rule that was in
  the chain already can move behind others (`Retry.SharedRuleMoves`). They are
  exactly when each chain ends in the rules it shares with the build, in the
  build's order, before these in those it has once more, and so on
  (`Retry.BuildThenTeardownIff`).
- A start whose driver state cannot be stored leaves its VM running with its
  address and rules and without a handle. No later destroy or start gets at it
  (`Handles.ForsakenIsOutOfReach`), so after any run these VMs are exactly those
  of such starts (`Handles.RunsForsakeIff`). Recovering a task only finds VMs in
  the registry of the same process, so none after a restart
  (`Handles.RecoversIff`).
- A failure between making the TAP and attaching it leaves the TAP behind, and
  nothing ever collects it (`Accounting.RunsLeakTapsIff`).
- A create that fails between making the work directory and the virtiofsd stage,
  or at the VFIO stage, or fails to remove the directory, leaves it
  (`WorkDirs.FailedCreateKeepsDirIff`); only a later create or destroy of the
  same name collects it (`WorkDirs.RunsLeaveDirIff`).
- `UnbindDevices` is documented to restore the original driver
  (cloudhypervisor/vfio_manager.go:41-42); it leaves the listed devices without
  one, and unlisted ones that new_id offered on vfio-pci
  (`Vfio.DriversRestoredIff`). A failed `BindDevices` leaves the devices before
  the failing one on vfio-pci (`Vfio.RollbackOnlyAfterBinding`), and so do a
  create that fails at the hypervisor or at boot and every destroy
  (`Bindings.LateFailureKeepsBindings`, `Bindings.BindingsOutliveVMs`).
- `isParent` refuses images inside an allowed directory whose next path element
  begins with ".." (`Paths.DottedNameRefused`, exactly those by
  `Paths.IsParentIff`).
- A task whose own kernel command line names an address keeps it, and its kernel
  is not given the reserved one (`Guest.OwnAddressWins`, exactly when by
  `Guest.TokenGivenIff`).
- The environment file is run by a shell (virt/driver.go:511-512), but its values
  are not quoted. A shell reads the map back exactly when every key is a name,
  every value is literal, and no setting is a pattern that matches the name of
  another file (`Sourcing.SourcedIff`; `Sourcing.UnmatchedPattern` and
  `Sourcing.MatchedPattern` show the difference). The driver's own default VM_DNS
  has a blank and is not literal: the guest sees its first server only
  (`Sourcing.DefaultServersCut`, `Sourcing.DefaultNeverSourced`). A reader that
  only splits lines does better (`EnvFile.RecoveredIff`).
- Derived MAC addresses are not unique (`Mac.MacsCollide`).
- After one failed look at the domain a task no longer counts as running, even
  if every later look finds it running (`Monitor.StillRunningIff`). Failed looks
  belong to the interface the monitor uses; the driver's own GetDomain
  (cloudhypervisor/driver.go:881-921) never reports one.
- The plugin builds the driver with binary validation skipped
  (virt/driver.go:222), and then no virtiofsd process is ever started
  (cloudhypervisor/vm_operations.go:211-262), so the mounts of a task are not
  served. The model covers both settings.

## Model

| member | source | states |
|---|---|---|
| Ipv4.ParseDotted | cloudhypervisor/driver.go:942-951 | printing an address and parsing it gives the address back |
| Ipv4.DottedParse | cloudhypervisor/driver.go:626 | a text that parses is the printed form of its address, so texts and addresses correspond one to one |
| Ipv4.DottedText | cloudhypervisor/driver.go:948-951 | an address is printed as the numerals of its four bytes, most significant first, with dots between them |
| Subnet.ContainsIsInterval | cloudhypervisor/driver.go:401-420 | a prefix contains exactly the addresses from its first to its last |
| Subnet.LastIsAddress | cloudhypervisor/driver.go:368-376 | the last address of a block is an IPv4 address |
| Subnet.ContainsIsMask | cloudhypervisor/driver.go:96-111 | a prefix contains an address exactly when both give the same value ANDed with the mask of its length |
| Subnet.MaskPrintersAgree | cloudhypervisor/driver.go:1005-1021 | the shift-based and the byte-based netmask printers print the same mask for every prefix |
| Subnet.MaskInjective | cloudhypervisor/driver.go:96-111 | different prefix lengths have different masks |
| Pool.StartsIff | cloudhypervisor/driver.go:469-503 | a configuration passes initialization and validation exactly when pool ends and gateway lie in the subnet in order and the gateway does not start the pool |
| Pool.InitializedFields | cloudhypervisor/driver.go:364-422 | initialization leaves the subnet without host bits, the given gateway or else the subnet's second address, and each pool end that lies in the subnet |
| Pool.ProblemsReported | cloudhypervisor/driver.go:469-503 | which problem validation reports, by the first condition that fails |
| Pool.PoolInSubnet | cloudhypervisor/driver.go:486-500 | every address of a validated pool is in the subnet |
| Pool.TakenByText | cloudhypervisor/driver.go:948-952 | looking an address up by its text is asking whether an entry parses to it |
| Pool.ScanFindsLowest | cloudhypervisor/driver.go:928-960 | the loop stops at the lowest free usable address, or shows that there is none, also at the top of the address space |
| Pool.AllocateIsLowestFree | cloudhypervisor/driver.go:923-963 | on a validated configuration the lowest free non-gateway pool address is returned, the outside-subnet error never is, and failure means no such address is free |
| Pool.UsableCount | cloudhypervisor/driver.go:486-500 | the usable addresses number the pool's length, one less with the gateway in it, and at least one |
| Pool.AllocationByCapacity | cloudhypervisor/driver.go:923-963 | allocation succeeds exactly while fewer usable addresses are held than the pool has |
| Guest.SettingsAgree | cloudhypervisor/driver.go:133-184 | the settings derived for a VM, VM_IP, VM_CIDR and cloud-init carry the reserved address and one bit count |
| Guest.DerivedSettings | cloudhypervisor/driver.go:133-184 | a VM gets the task's gateway, name servers and prefix length where the task gives them, the driver's elsewhere |
| Guest.LengthRead | cloudhypervisor/driver.go:165-177 | a task's netmask gives a prefix length exactly when it is a decimal numeral from 0 to 32 |
| Guest.EnvTold | cloudhypervisor/driver.go:652-668 | the four variables the guest is told, and that the task's other ones are left alone |
| Guest.CloudInitTold | cloudhypervisor/vm_operations.go:50-112 | cloud-init is given the same settings, the mask as a bit count |
| Guest.NamesAddressIff | cloudhypervisor/vm_operations.go:314 | a command line counts as naming an address exactly when an "ip=" stands behind a blank or behind white space only |
| Guest.AddIpTokenIdempotent | cloudhypervisor/vm_operations.go:301-330 | adding the ip= token twice, on any command line and with any settings, is adding it once |
| Guest.TokenAdded | cloudhypervisor/vm_operations.go:301-330 | a command line without an address ends in the token, one with an address is kept |
| Guest.TokenGivenIff | cloudhypervisor/vm_operations.go:301-330 | the token is on the command line exactly when the task's own names no address, or holds this token |
| Guest.TokenText | cloudhypervisor/vm_operations.go:322 | the token is "ip=" and the address, no server, gateway, mask, host name, interface and "none", joined by colons |
| Guest.TokenReads | cloudhypervisor/vm_operations.go:322 | so the kernel, splitting it at the colons, reads each of them in its place when none holds a colon |
| Guest.OwnAddressWins | cloudhypervisor/vm_operations.go:314 | a command line whose kernel is never given the reserved address |
| Guest.HypervisorAgrees | cloudhypervisor/vm_operations.go:275-398 | a configuration is built exactly when a kernel and an initramfs are known, with these, the reserved address, the mask of the same length, and the command line treated so with the text that gives the kernel this address, gateway, mask and host name |
| Virtualizer.ReserveIsFresh | cloudhypervisor/driver.go:620-646 | a reserved address was not held, and is the static one if the task names one |
| Virtualizer.RollbackVirtiofsd | cloudhypervisor/driver.go:692-698 | the rollback after mounts that started part-way leaves no process and no directory of the VM, and no TAP unless both attempts to delete it fail |
| Virtualizer.RollbackConfig | cloudhypervisor/driver.go:700-708 | the same for a configuration that cannot be built |
| Virtualizer.RollbackVfio | cloudhypervisor/driver.go:710-716 | the rollback of the VFIO stage, which keeps the work directory |
| Virtualizer.RollbackHypervisor | cloudhypervisor/driver.go:720-727 | the rollback of a hypervisor that did not start or did not answer |
| Virtualizer.RollbackBoot | cloudhypervisor/driver.go:729-734 | the rollback of a VM that did not boot |
| Virtualizer.LaunchIsLastStage | cloudhypervisor/driver.go:692-746 | a create that got its address and TAP ends as its launch stages end, registering the VM only if all succeed |
| Virtualizer.BootedHost | cloudhypervisor/driver.go:718-746 | the host after a create that succeeded |
| Virtualizer.StartedPidsAreFresh | cloudhypervisor/vm_operations.go:211-262 | processes a call starts are none that ran before |
| Virtualizer.Driver.constructor | cloudhypervisor/driver.go:329-362 | a new driver has the initialized network state, no VM and no address held |
| Virtualizer.Driver.InitializeNetworkConfig | cloudhypervisor/driver.go:364-422 | the parsed fields are the configured ones masked, defaulted and cleared outside the subnet |
| Virtualizer.Driver.AllocateIP | cloudhypervisor/driver.go:923-963 | the loop returns what the allocation function returns and adds exactly that address |
| Virtualizer.Driver.DeallocateIP | cloudhypervisor/driver.go:965-967 | exactly one address is given back |
| Virtualizer.Driver.SetupNetworking | cloudhypervisor/vm_operations.go:130-175 | the TAP exists afterwards exactly when its creation succeeded, also if attaching it failed |
| Virtualizer.Driver.CleanupNetworking | cloudhypervisor/vm_operations.go:177-209 | only this TAP goes, if the deletion works |
| Virtualizer.Driver.StartVirtiofsd | cloudhypervisor/vm_operations.go:211-262 | one new process for each mount up to the first failure, all recorded |
| Virtualizer.Driver.StopVirtiofsd | cloudhypervisor/vm_operations.go:264-272 | exactly the recorded processes are gone |
| Virtualizer.Driver.StartCHProcess | cloudhypervisor/vm_operations.go:401-445 | success means a live process; one whose socket never answers is killed |
| Virtualizer.Driver.CleanupProcess | cloudhypervisor/vm_operations.go:615-641 | the VM's processes, TAP and directory go, nothing else |
| Virtualizer.Driver.ReserveAddress | cloudhypervisor/driver.go:620-646 | the static address or one from the pool is added, or none |
| Virtualizer.Driver.LaunchDomain | cloudhypervisor/driver.go:692-734 | the imperative stages with their rollbacks equal the launch function, and a failure gives the address back |
| Virtualizer.Driver.CreateDomain | cloudhypervisor/driver.go:594-746 | result and whole new state of a create for every pattern of the faults given to it |
| Virtualizer.Driver.DestroyDomain | cloudhypervisor/driver.go:775-800 | result and whole new state of a destroy |
| Creates.AllocateIff | cloudhypervisor/driver.go:923-963 | for any configuration, valid or not, the pool gives an address exactly when it is the first from the pool's start on that is neither the gateway nor held, inside the subnet, with the pool's end not passed |
| Creates.AllocateErrors | cloudhypervisor/driver.go:923-963 | which error an allocation ends with, for any configuration |
| Creates.RegistersIff | cloudhypervisor/driver.go:594-746 | a create registers a new name exactly when no stage it runs meets a fault, the stages listed outright |
| Creates.FirstFaultDecides | cloudhypervisor/driver.go:594-746 | the error a create returns is that of the first stage that does not work |
| Creates.RegistersThis | cloudhypervisor/driver.go:594-746 | what a create that works adds to the registry, the address table, the TAPs, the processes and the directories |
| Creates.Boots | cloudhypervisor/vm_operations.go:275-398 | the kernel and initramfs a new VM boots are the ones asked for, else the driver's |
| Creates.PidsUsed | cloudhypervisor/driver.go:692-746 | how many processes a create starts, by the stage it gets to |
| Creates.DestroyRemoves | cloudhypervisor/driver.go:775-800 | what a destroy takes away and what it leaves, one by one |
| Accounting.CreateKeepsAccounts | cloudhypervisor/driver.go:594-746 | a create keeps the address table equal to the registered VMs' distinct addresses; a failed one restores both maps |
| Accounting.DestroyKeepsAccounts | cloudhypervisor/driver.go:775-800 | a destroy keeps it too and frees exactly the VM's address |
| Accounting.RunsKeepAccounts | cloudhypervisor/driver.go:594-800 | so in every reachable state |
| Accounting.AddressesDiffer | cloudhypervisor/driver.go:626-645 | two VMs never hold one IPv4 address under two texts |
| Accounting.PoolServesByCapacity | cloudhypervisor/driver.go:637-645 | in such a state a task without a static address is served exactly while the VMs, static ones included, hold fewer usable addresses than the pool has |
| Accounting.CreateKeepsOwnership | cloudhypervisor/driver.go:594-746 | after a create, failed or not, every live process belongs to a registered VM, and VMs share no process or TAP |
| Accounting.DestroyKeepsOwnership | cloudhypervisor/driver.go:775-800 | the same after a destroy |
| Accounting.RunsKeepOwnership | cloudhypervisor/driver.go:594-800 | the same in every reachable state |
| Accounting.OthersUntouched | cloudhypervisor/vm_operations.go:615-641 | a create or destroy leaves every other VM's record, processes, TAP and directory alone |
| Accounting.StepLeaksIff | cloudhypervisor/driver.go:686-698 | which steps leave a TAP without an owner |
| Accounting.RunsLeakTapsIff | cloudhypervisor/driver.go:686-734 | a run ends with exactly the host's and the VMs' TAPs if and only if no create failed between making and attaching its TAP and no rollback or destroy failed in all its attempts to delete one |
| WorkDirs.FailedCreateKeepsDirIff | cloudhypervisor/driver.go:606-734 | a failed create leaves a new work directory exactly when it made one and its stage does not remove it or fails to |
| WorkDirs.RunsLeaveDirIff | cloudhypervisor/driver.go:606-800 | after any run a directory without a VM is left for a name exactly when some call left it and no later call got as far as it |
| Chains.DeleteAllMultiset | chnet/controller.go:473-480 | deleting a list of rules one by one subtracts it as a multiset |
| Chains.OthersKeepOrder | chnet/controller.go:473-480 | rules outside the list keep their order |
| Chains.ClearsIff | chnet/controller.go:473-480 | deleting a specification leaves the chain filtered by "not in it" exactly when the chain has no further copies of its rules |
| Rules.ArgsInjective | chnet/controller.go:361-400 | different rules have different iptables arguments, so equal arguments mean the same rule |
| Rules.ArgsRead | chnet/controller.go:361-400 | the table, chain and options iptables reads from a rule's arguments |
| Rules.PlannedRules | chnet/controller.go:342-414 | every rule of a build leads to the guest through the interface of its host address |
| Rules.PlanLength | chnet/controller.go:323-415 | a build has two rules for each reserved label up to the first whose host address has no interface, and is complete exactly if there is no such label |
| Rules.PlanByPosition | chnet/controller.go:361-411 | the rules of the k-th reserved label are the DNAT from its host address and port and the ACCEPT for where it leads |
| Rules.PlanCompleteIff | chnet/controller.go:342-360 | a plan is complete exactly when every reserved label's host address has an interface, and empty when the first has none |
| Rules.DeletedSplit | chnet/controller.go:463-485 | the rules a teardown deletes and the ones it leaves make up the specification |
| NetController.Controller.Append | chnet/controller.go:378-402 | a rule goes to the end of its chain |
| NetController.StopsPartWayIff | chnet/controller.go:355-402 | a build returns an error and leaves rules exactly when its first append works and a later one fails or some host address has no interface |
| NetController.UnknownInterfaceLeavesRules | chnet/controller.go:353-358 | with two host addresses and a working iptables that happens |
| NetController.Controller.DeleteIfExists | chnet/controller.go:473-480 | the first equal rule goes, if there is one |
| NetController.Controller.ConfigureIPTables | chnet/controller.go:323-415 | with its per-call interface cache the loop appends exactly the prefix of the uncached plan up to the failing append, and returns the rules only if all were appended |
| NetController.Controller.VMStartedBuild | chnet/controller.go:214-314 | result and new chains of a build: address choice, errors before any rule, forwarding rules |
| NetController.Controller.VMTerminatedTeardown | chnet/controller.go:444-485 | all rules are tried, the errors are collected, and nil means all were deleted or there was no iptables |
| Builds.BuildAnswers | chnet/controller.go:214-314 | a build answers with no bridge, no address, a failed append, a missing interface or the address and rules exactly under conditions on the request and the host; the task's bridge comes before the driver's |
| Builds.BuildAppends | chnet/controller.go:342-415 | the rules a build leaves, one by one, for each answer |
| Ledger.RecordConserves | chnet/controller.go:342-485 | one build or teardown, failed or not, keeps the conservation law |
| Ledger.RunsConserve | chnet/controller.go:342-485 | over any interleaving the chains hold what they held at first, the live specifications and the orphans, duplicates counted |
| Ledger.ChainsConserved | chnet/controller.go:342-485 | the same chain by chain, rule by rule |
| Ledger.OrphansIff | chnet/controller.go:355-480 | a run leaves orphans exactly when one of its builds failed with rules appended, or one of its teardowns did not delete |
| Retry.TriesShrink | chnet/controller.go:463-485 | attempts that fail anywhere never touch a rule outside the specification or its place |
| Retry.TriesCount | chnet/controller.go:463-485 | attempts leave as many copies of a rule as they did not delete |
| Retry.RetryConvergesIff | chnet/controller.go:463-485 | after any attempts, one that reports success leaves the original chains without the specification's rules exactly when it had iptables or the earlier attempts deleted each rule as often as it was there |
| Retry.BuildThenTeardown | chnet/controller.go:342-480 | a build and its full teardown are the identity on chains that had none of its rules |
| Retry.BuildThenTeardownIff | chnet/controller.go:342-480 | in general they are the identity exactly when each chain ends in the rules it shares with the build, in the build's order, before these in those it has once more, and so on, repeated rules included |
| Retry.SharedRuleMoves | chnet/controller.go:473-480 | a rule followed by another moves behind it, and stays where it is once it is last |
| Layers.AppendDeleteIff | chnet/controller.go:378-480 | for any chain and list, appending and deleting the list again changes nothing exactly when the chain is layered so |
| Layers.LayeredOnceIff | chnet/controller.go:473-480 | when the chain has each rule once at most, it must end in those it has, in the list's order |
| Layers.LayeredRuleIff | chnet/controller.go:473-480 | for one rule, nothing else may follow it |
| Forwarding.PlansHaveOneInterface | chnet/controller.go:342-400 | one build uses one interface for each host address |
| Forwarding.TaskMatchIsLookup | chnet/controller.go:361-380 | first match in one task's rules is a lookup in its port map |
| Forwarding.BuildRoutes | chnet/controller.go:342-414 | a build with new keys keeps the chain and the map in step |
| Forwarding.FailedBuildRoutes | chnet/controller.go:355-402 | a failed build disturbs only the keys of the rules it leaves |
| Forwarding.TeardownRoutes | chnet/controller.go:473-480 | a teardown keeps them in step, wherever the rules lie and whichever deletions fail, but for the keys of the rules it leaves |
| Forwarding.ChainRefinesMap | chnet/controller.go:342-480 | after any run with distinct live keys, failures included, first match in the chain equals the finite port map for every key without an orphaned rule, and other packets meet what was there at first |
| Plugin.VirtDriverPlugin.constructor | virt/driver.go:161-178 | a new plugin has no tasks |
| Plugin.VirtDriverPlugin.StartTask | virt/driver.go:540-791 | result and whole new state of a start over the virtualizer, the controller and the store |
| Plugin.VirtDriverPlugin.DestroyTask | virt/driver.go:370-400 | result and whole new state of a destroy |
| WholeSystem.NamesHaveNoSlash | virt/driver.go:472-475 | a domain name has no slash, so it is never a stored task ID that has one |
| WholeSystem.ControllerUsesReserved | virt/driver.go:727-746 | the address the controller forwards to is the one reserved for the VM |
| WholeSystem.BuildLeadsToGuest | chnet/controller.go:270-314 | all rules of a build lead to the address it reports |
| WholeSystem.StartKeepsSound | virt/driver.go:701-791 | a start, wherever it fails, keeps the whole-system invariant |
| WholeSystem.EndKeepsSound | virt/driver.go:370-400 | a destroy keeps it |
| WholeSystem.RunsKeepSound | virt/driver.go:370-791 | every run keeps it |
| WholeSystem.RunBooks | virt/driver.go:370-791 | the controller's part of a run is a run of builds and teardowns |
| WholeSystem.RulesLeadHome | virt/driver.go:701-791 | with failures anywhere, a rule beyond the first ones and the orphans belongs to a registered VM and leads to the address it alone holds |
| WholeSystem.CleanRunsLeadHome | virt/driver.go:701-791 | a run leaves orphans exactly when a build stopped after its first append or a teardown could not delete; when none did, every added DNAT rule leads to the address its own VM alone holds |
| WholeSystem.EventLeavesIff | virt/driver.go:384-397 | which starts and destroys leave rules, told from what they are given |
| WholeSystem.HandleRemovedIff | virt/driver.go:397 | the store entry goes exactly when the task ID is empty |
| WholeSystem.StartedIdsStayTaken | virt/driver.go:789 | a started task's ID can never be started again |
| WholeSystem.SecondDestroyRefused | virt/driver.go:384-387 | a second destroy fails before the teardown and changes nothing |
| Handles.StepForsakesIff | virt/driver.go:784-789 | a VM loses its handle exactly in a start that works but for storing the driver state |
| Handles.RunsForsakeIff | virt/driver.go:370-791 | after any run exactly such VMs are without a handle |
| Handles.ForsakenIsOutOfReach | virt/driver.go:370-376 | a VM without a handle keeps address and rules, and destroys and starts of its task change nothing |
| Handles.RecoversIff | virt/driver.go:795-834 | a task is recovered exactly when its state can be read and this process has its VM without a handle, so never with an empty registry |
| Handles.RecoverKeepsSound | virt/driver.go:795-834 | recovering a task with its VM's own specification keeps the system sound and puts the VM within reach of a destroy again |
| WholeSystem.FailedBuildStrandsRules | chnet/controller.go:355-402 | a failed build leaves its prefix in the chains with its VM gone and the address free |
| WholeSystem.StartedAgrees | virt/driver.go:673-746 | for every started task the address told to Nomad, the guest and the hypervisor is the reserved one, with the task's prefix length, gateway and name servers or else the driver's; the kernel is given the ip= parameter of these and the task's host name exactly when the task's command line names no address or holds it, and reads each field in its place |
| Tasks.NameOfTask | virt/driver.go:472-475 | a domain is named after the task and its unique id |
| Tasks.StartAnswers | virt/driver.go:540-791 | each answer of a start, exactly when it is given, told from the request, the registry and the host |
| Tasks.StartedTask | virt/driver.go:673-791 | a started task's VM has the request's kernel, initramfs, mounts and address, its rules forward the request's reserved ports in order, and the handle holds them |
| Tasks.StartedAddress | virt/driver.go:718-746 | with any configuration Nomad is told the VM's address, an IPv6 one in its canonical form |
| Tasks.StartedDevices | virt/driver.go:688-691 | the devices given to the VFIO stage are the request's, and a started task finds all on vfio-pci |
| Tasks.DestroyAnswers | virt/driver.go:370-400 | each answer of a destroy, exactly when it is given, told from the request and the state |
| Tasks.DestroyTakes | virt/driver.go:370-400 | a destroy that gets past the checks takes the VM, its address and its live rules away, and leaves the rules it could not delete as orphans |
| Tasks.AnswerTellsRules | virt/driver.go:389-397 | with iptables the answer is Destroyed exactly when no rule is left behind; without, it is so all the same |
| Delivery.BindingLeadsHome | chnet/controller.go:361-380 | a key of the port map without an orphaned rule leads to the VM of the task that owns the key |
| Delivery.BuildKeys | chnet/controller.go:342-380 | the rules of a task's build are for host ports it asked for, through one interface for each host address |
| Delivery.RunIsClean | virt/driver.go:540-791 | starts that ask for free host ports only make events the port map can follow |
| Delivery.PacketsReachTheirVM | virt/driver.go:370-791 | over whole runs with failures anywhere, in which each start asks for host ports of no live task and of no rule in the first chain, a packet to a host port without an orphaned rule reaches the VM that alone holds the target address if a live task uses the port, and is treated as at first if none does |
| Reuse.StrandedRuleReusedIff | cloudhypervisor/driver.go:620-646 | a stranded rule stays when a task starts, and leads to its VM exactly when the task asks for the address or every lower usable one is held |
| Resources.RunVms | virt/driver.go:370-791 | every run of tasks is a run of driver calls |
| Resources.TasksKeepOwnership | virt/driver.go:370-791 | after any run of tasks every process belongs to a registered VM, and the host is as the next start needs it |
| Resources.TasksLeakTapsIff | virt/driver.go:370-791 | a run of tasks leaves exactly the right TAPs if and only if none of its driver calls leaks one |
| Paths.CleanIsIdempotent | internal/shared/domain.go:215-218 | cleaning a cleaned path changes nothing |
| Paths.CleanStep | internal/shared/domain.go:215-218 | what one more element does to a cleaned path |
| Paths.CleanKeepsDestination | internal/shared/domain.go:215-218 | cleaning never changes where a path leads, from any working directory |
| Paths.IsParentIff | internal/shared/domain.go:215-218 | isParent holds exactly when the cleaned elements extend the parent's and the next one does not begin with ".." |
| Paths.ParentContains | internal/shared/domain.go:215-218 | what isParent accepts lies at or below the parent, from any working directory |
| Paths.RootedContainmentIff | internal/shared/domain.go:215-218 | for rooted paths that is the only way containment is refused |
| Paths.DottedNameRefused | internal/shared/domain.go:215-218 | a contained image that is refused |
| Paths.IsAllowedImagePath | internal/shared/domain.go:220-235 | accepted exactly when some allowed path is a parent |
| Vfio.BindAllOnlyBinds | cloudhypervisor/vfio_manager.go:197-252 | whatever fails, no device leaves vfio-pci and a device that gains a driver gains vfio-pci |
| Vfio.UnreachedKeepsDriver | cloudhypervisor/vfio_manager.go:197-252 | a device with a driver whose turn did not come keeps it |
| Vfio.FinishedOnVfio | cloudhypervisor/vfio_manager.go:197-252 | an error at index i leaves every device before i on vfio-pci |
| Vfio.BoundOnSuccess | cloudhypervisor/vfio_manager.go:197-252 | nil means every listed device, repeats included, is on vfio-pci |
| Vfio.BindWritesNothingIff | cloudhypervisor/vfio_manager.go:207-211 | with working reads a call writes nothing exactly when all listed devices are bound |
| Vfio.SecondBindIsSilent | cloudhypervisor/vfio_manager.go:207-211 | a second call after success does no writes |
| Vfio.QuietBindSucceeds | cloudhypervisor/vfio_manager.go:197-252 | without failures binding succeeds from any state |
| Vfio.UnbindAllExact | cloudhypervisor/vfio_manager.go:255-276 | unbinding removes exactly the vfio-pci bindings it could read and write |
| Vfio.QuietUnbindFrees | cloudhypervisor/vfio_manager.go:255-276 | without failures no listed device is on vfio-pci afterwards |
| Vfio.UnlistedGainIff | cloudhypervisor/vfio_manager.go:227-235 | a device that is not listed has a driver after binding exactly when it had one or new_id offered it |
| Vfio.DriversRestoredIff | cloudhypervisor/vfio_manager.go:197-276 | binding then unbinding leaves all drivers as before exactly when no listed device had one and new_id offered only listed devices or ones with a driver; other offered devices stay on vfio-pci |
| Vfio.GroupingPartitions | cloudhypervisor/vfio_manager.go:163-194 | the groups hold every listed device as often as it is listed |
| Vfio.GroupingUnique | cloudhypervisor/vfio_manager.go:187-191 | the result is unique up to map iteration order |
| Vfio.GroupPathInjective | cloudhypervisor/vfio_manager.go:292 | different plain group IDs have different device paths |
| Vfio.PathsMatchGroups | cloudhypervisor/vfio_manager.go:279-310 | the group paths correspond one to one to the groups |
| Vfio.DeviceIdsDiffer | cloudhypervisor/driver.go:1106-1115 | the devices added to a VM have different IDs |
| Vfio.RollbackOnlyAfterBinding | cloudhypervisor/driver.go:1048-1074 | what each outcome of adding devices leaves bound; only missing group paths are rolled back |
| Vfio.VfioManager.BindDevice | cloudhypervisor/vfio_manager.go:200-249 | result, drivers and writes of one device's turn |
| Vfio.VfioManager.BindDevices | cloudhypervisor/vfio_manager.go:197-252 | result, drivers and writes of the loop |
| Vfio.VfioManager.UnbindDevices | cloudhypervisor/vfio_manager.go:255-276 | drivers after the loop |
| Vfio.VfioManager.CheckIOMMUGroups | cloudhypervisor/vfio_manager.go:163-194 | succeeds exactly when every lookup finds a group, with a grouping in the order listed; the first device without one decides the error |
| Vfio.VfioManager.GetVFIOGroupPaths | cloudhypervisor/vfio_manager.go:279-310 | succeeds exactly when every lookup finds a group whose node exists, with each path once; the first device without one decides the error |
| Vfio.VfioManager.AddVFIODevices | cloudhypervisor/driver.go:1024-1122 | result, drivers and writes of the whole passthrough set-up |
| Devices.TurnSucceedsIff | cloudhypervisor/vfio_manager.go:200-249 | when one device's turn succeeds, told from sysfs and its faults |
| Devices.TurnWrites | cloudhypervisor/vfio_manager.go:200-249 | what it writes, in order |
| Devices.TurnDrivers | cloudhypervisor/vfio_manager.go:200-249 | which driver each device has after it |
| Devices.BindFailsAtIff | cloudhypervisor/vfio_manager.go:197-252 | binding a list fails at the first device whose turn fails |
| Devices.BindOneMore | cloudhypervisor/vfio_manager.go:197-252 | one more device in the list gets its turn exactly when all before it succeeded |
| Devices.AddAnswers | cloudhypervisor/driver.go:1024-1122 | the stage at which adding devices ends, told from the verdict, the groups, the turns and the nodes |
| Bindings.ReachesIff | cloudhypervisor/driver.go:710-716 | a create fails at the VFIO stage exactly when it reaches it and adding the devices fails |
| Bindings.LateFailureKeepsBindings | cloudhypervisor/driver.go:720-734 | a create that gets past the stage, also one that fails later, leaves its devices on vfio-pci |
| Bindings.LeavesVfioIff | cloudhypervisor/driver.go:1068-1074 | a device leaves vfio-pci exactly when a create that lists it cannot find all group paths and unbinding works |
| Bindings.BindingsOutliveVMs | cloudhypervisor/driver.go:775-800 | over whole runs, destroys included, bindings stay until then |
| Base64.DecodeEncode | cloudhypervisor/driver.go:201 | decoding undoes encoding, for every byte string |
| Base64.EncodeDecode | cloudhypervisor/driver.go:201 | each accepted text is the one encoding of its bytes |
| Base64.DigitsAreTable | cloudhypervisor/driver.go:202 | the digits are those of table 1 of RFC 4648 |
| Base64.Examples | cloudhypervisor/driver.go:202 | the test vectors of section 10 of RFC 4648 |
| EnvFile.SortSorts | cloudhypervisor/driver.go:195 | sorting the keys sorts them, by bytes |
| EnvFile.BeforeIff | cloudhypervisor/driver.go:195 | the order: at the first place where two keys differ, the earlier one ends or has the smaller byte |
| EnvFile.SortedUnique | cloudhypervisor/driver.go:195 | a sorted list is decided by its members |
| EnvFile.OrderDoesNotMatter | cloudhypervisor/driver.go:191-200 | the file's text does not depend on the order in which the map is walked |
| EnvFile.RecoveredIff | cloudhypervisor/driver.go:186-209 | decoding the file, splitting its lines and splitting each at its first "=" gives the map back exactly when no key holds "=" or a newline and no value a newline |
| EnvFile.EnvFileFromMap | cloudhypervisor/driver.go:186-209 | no file for an empty map, otherwise the same file whatever the iteration order |
| ShellQuotes.ReadingUsesQuotes | cloudhypervisor/driver.go:197-200 | a shell's reading of a text never adds quote characters and loses one outside quotations if there is any |
| Sourcing.SourcedIff | cloudhypervisor/driver.go:186-209 | a shell that reads the decoded file sets the map's variables to its values exactly when keys are names, values are literal, and no setting is a pattern that matches path names of which the last is another |
| Sourcing.UnmatchedPattern | cloudhypervisor/driver.go:197-200 | a value with pattern characters that is read back where it matches nothing |
| Sourcing.MatchedPattern | cloudhypervisor/driver.go:197-200 | one that is lost to a file's name |
| Sourcing.ValueCut | cloudhypervisor/driver.go:197-200 | a value with a blank is cut there, and the reading ends if the rest is no name |
| Sourcing.DefaultServersCut | cloudhypervisor/driver.go:133-138 | the default name servers are such a value |
| Sourcing.ServersNeverSourced | cloudhypervisor/driver.go:658-668 | an environment with two or more name servers is never read back |
| Sourcing.DefaultNeverSourced | cloudhypervisor/driver.go:133-168 | nor is that of any task that names no servers |
| Mac.WrapKeepsLow | cloudhypervisor/driver.go:972-975 | wrapping at a machine width of 24 bits or more keeps the low 24 bits |
| Mac.Generate | cloudhypervisor/driver.go:969-980 | the address is that of the base-31 polynomial of the name modulo 2^24, whatever the width |
| Mac.SameMacIff | chnet/controller.go:503-515 | two names get one address exactly when their polynomials agree modulo 2^24 |
| Mac.PrintedReads | cloudhypervisor/driver.go:976-979 | the address reads as 52:54:00 and the low 24 bits, most significant byte first |
| Mac.MacsCollide | chnet/controller.go:500-515 | two names that do |
| Monitor.TaskHandle.Watch | virt/handle.go:83-118 | closed form of the monitor: at most one result is sent, at the first missing or non-running look, and stored; the state is Exited then, else Unknown if any look failed, else what it was |
| Monitor.StillRunningIff | virt/handle.go:75-97 | a task counts as running exactly while every look found it running |
| Monitor.StretchesCompose | virt/handle.go:88-117 | watching in stretches is watching the whole |
| Monitor.ExitCodes | virt/handle.go:120-141 | which look at a domain gives which exit code and error |

## Left out

- Mac.Generate: stands for both functions with this body (cloudhypervisor/driver.go:969-980 and chnet/controller.go:503-515); the address is not carried into the VM's configuration.
- Paths.IsParentIff: when the target is a proper start of the base, whether filepath.Rel reports an error or an answer that begins with ".." is not told apart; isParent is false both ways.
- EnvFile.EnvFileFromMap: putting the file into the task's file list (upsertFile) is not modelled, and sort.Strings is an insertion sort.
- Virtualizer.Driver.CreateDomain: the VFIO stage is one fault here, and the drivers of PCI devices are not in its state; `Bindings` puts the two together.
- Process IDs are never reused. The source kills recorded IDs of processes that may have exited long before (cloudhypervisor/vm_operations.go:615-641); `Accounting.OthersUntouched` and the ownership results rest on their not having been given to another process.
- Killing a process always works, and the shutdown request before a destroy changes nothing by itself.
- Sourcing.SourcedIff: for shells that follow POSIX.1-2017. Which path names a setting matches is an input, empty for shells that match none in arguments of export; the names it holds begin as the pattern does and have no blank, newline, quote character or other character that needs quoting. Blanks are space and tab; extensions such as brace expansion, and bytes that a locale reads as more, are not modelled.
- Sourcing.ValueCut: what a shell does after export refused an argument is not modelled; the reading ends there.
- HTTP to the Cloud Hypervisor API, starting processes, ip, qemu-img, timeouts and polling: calls that succeed or fail.
- A record of a running VM is a value, not a shared object, so changes to it after registration other than its removal are not modelled.
- Work directories are keyed by the VM's name; names that the file system reads as other directories are not treated.
- TAP names come from a hash of the name and the time: the name is an input, and creating a TAP that exists fails.
- IPv6: an IPv6 text is read through a given finite map to its canonical form; IPv6 subnets and pools are not modelled.
- Interleavings inside one locked call, and the plugin's goroutines.
- The monitor's ticker and channel: a monitor is a finite sequence of looks; several monitors of one task are not composed.
- A network interface without a bridge block: the controller reads through it (chnet/controller.go:298, 342), so every request has one.
- `ensureIPTables` and the creation of the chains: the chains are there, with anything in them.
- `ValidateDevices` and the allowlist: its verdict is an input of `Vfio.VfioManager.AddVFIODevices`; the platform settings of that function are constants of the configuration and left out.
- Recovering a task is a function on the system and not an event of its runs, and the state of the recovered handle is left out.
- `StopTask`, task statistics, fingerprints, HCL specifications, configuration defaults and logging: no state worth a proof. A VM that stops is a process that exits.
- ISO images and cloud-init templates: only the network fields passed to them.
- DHCP lease lookup and its integer conversions: nothing calls them.
