# Network security group sample, modelled in Dafny

The program is a command-line sample for the Azure resource-management API,
written in Go (`sample.go`). In `init` it reads four authentication settings
from the environment, validates them, rewrites each identifier into its
canonical GUID form, and authenticates. In `main` it then:

- picks an unused resource-group name and creates the group;
- creates, inside the group, a virtual network, two network security groups
  ("frontend" and "backend"), two subnets and four security rules;
- stops at the first failure it checks, with one exit status per kind of
  failure;
- always deletes the group again once it exists.

Most remote operations go through `executeWithStatus`, which writes
SUCCESS or FAILED and a failure detail. Three do not: the listing of the
groups (sample.go:435), the creation of the group, which writes its own
SUCCESS or FAILED and error line (sample.go:349-356), and the read-back of a
security group (sample.go:331). `Cloud.ThroughExecutor` draws that line.

The model replaces each remote call by an outcome fixed in advance. The class
`Cloud.Environment` holds:

- the reply to every call (`reply`) and to the listing of the groups (`listReply`);
- the trace of calls made (`calls`);
- the SUCCESS/FAILED reports written (`reports`).

A run of `main` is therefore determined by these outcomes. `Orchestrator.ExpectedRun` states it declaratively:

- help, then the token, then the group;
- then `Plan`, the eleven calls made inside the group, each paired with the
  exit status its failure causes when the program looks at it;
- `Execute` stops at the first such failure;
- the deletion comes last.

The methods that mirror the program (`RunMain`, `CreateResourceGroup`,
`CreateNetworkSecurityGroup`, …) are proved to produce exactly that run.

Modules, one per file:

- `wrappers.dfy`: Option.
- `text.dfy`: Go's string order, `strings.HasPrefix`, `sort.Strings` and the `%d` verb.
- `status.dfy`: the success test and `getFailureStatus`.
- `cloud.dfy`: calls, replies and the environment.
- `executor.dfy`: `executeWithStatus`.
- `allocator.dfy`: `getUniqueResourceGroupName`.
- `setup.dfy`: `init`, `validateParameters`, `newMissingAzureAuthError`.
- `orchestrator.dfy`:
  - `main`, `createResourceGroup`, `deleteResourceGroup`, `createVirtualNetwork`, `createNetworkSecurityGroup`;
  - the exit statuses.

The allocator sorts names as strings, not as numbers. Its result is proved
fresh (`Allocator.FreshWhenSuffixesAreSingleDigits`) under two conditions:
every name is listed once, and every other prefixed name has a single-digit
suffix. Both are needed. With the prefix p, the listing p, p0, p1, p1, p2 makes
the allocator return p2, which is listed (`Allocator.RepeatedNameCollides`).
Two more lemmas show the limit of the suffix condition:

- `Allocator.InterloperHidesTakenName`: a name that sorts between
  "networkSecurityGroupSample1" and "networkSecurityGroupSample2" makes the
  allocator return "networkSecurityGroupSample2" even though it is listed.
- `Allocator.TwoDigitSuffixCollides`: the same happens with
  "networkSecurityGroupSample10".

## Model

| member | source | states |
|---|---|---|
| Status.Succeeded | sample.go:470 | the success test of `executeWithStatus`: no error, and a response whose status code is 200 |
| Status.StatusBlock | sample.go:481-483 | the status-code and status lines written for a present response; empty without one |
| Status.ErrorLine | sample.go:485-487 | the error line written for a non-nil error; empty without one |
| Status.FailureStatus | sample.go:479-494 | the failure detail is never empty |
| Status.FailureStatusShape | sample.go:479-494 | the detail is the fallback text exactly when there is neither response nor error; it opens with the status block exactly when a response is present; it ends with the error line whenever there is an error; without a response it opens with the error label exactly when there is an error |
| Status.GetFailureStatus | sample.go:479-494 | the detail built by appending the status block and the error line to an empty string, then falling back, is the failure detail |
| Status.ExecutorReport | sample.go:470-475 | a FAILED report always carries a non-empty detail |
| Executor.ExecuteWithStatus | sample.go:465-477 | the operation is issued exactly once; its response and error are handed back unchanged; SUCCESS is written exactly when there is no error and the status is 200, otherwise FAILED with the failure detail |
| Cloud.GroupReport | sample.go:349-356 | what `createResourceGroup` writes after creating the group: SUCCESS, or FAILED with the error line |
| Cloud.ReportsOf | sample.go:465-477 | what is written once a call returns: the executor's report for calls through `executeWithStatus`, `GroupReport` for the group creation (349-356), nothing for the listing (435) and the read-back (331) |
| Cloud.Narration | sample.go:465-477 | the reports written over a trace of calls, in call order; `Environment.Valid` ties the written reports to it |
| Cloud.Environment.Invoke | sample.go:468 | issuing one remote call: it is appended to the trace and its scripted outcome is returned, with nothing written |
| Cloud.Environment.Write | sample.go:470-475 | writing one report: it is appended to the reports, and the trace is unchanged |
| Cloud.Environment.List | sample.go:435 | listing the groups is one more call in the trace and yields the scripted listing |
| Text.Less | sample.go:449 | the order `sort.Strings` sorts by: byte-wise lexicographic, a proper prefix first; its properties are the lemmas below |
| Text.HasPrefix | sample.go:444 | `strings.HasPrefix` |
| Text.SortStrings | sample.go:449 | `sort.Strings`, as an insertion sort; SortStringsSorts states what it yields |
| Text.Decimal | sample.go:453 | `%d` of a natural number: digits only, no leading zero, one digit exactly below 10; DecimalRoundTrip reads it back |
| Text.IntDecimal | sample.go:462 | `%d` of any integer: a minus sign exactly for a negative one |
| Text.SortStringsSorts | sample.go:449 | `sort.Strings` yields a sorted permutation of its input |
| Text.SortedPermutationUnique | sample.go:449 | two sorted sequences with the same strings are equal, so any sorting algorithm gives the modelled order |
| Text.PrefixComesFirst | sample.go:445-450 | a string sorts before every proper extension of it |
| Text.LessAfterCommonPrefix | sample.go:449 | comparing two strings with a common prefix compares what follows it |
| Text.DecimalRoundTrip | sample.go:453 | `%d` of a natural number reads back as that number |
| Text.DecimalInjective | sample.go:453 | distinct numbers print differently |
| Allocator.AllocateName | sample.go:433-463 | the name or error `getUniqueResourceGroupName` yields for a listing; its meaning is stated by the lemmas AllocationOutcome to TwoDigitSuffixCollides |
| Allocator.Prefixed | sample.go:441-448 | the listed names with the prefix, in list order; PrefixedMembers states which and how often |
| Allocator.Seen | sample.go:441-449 | those names after `sort.Strings`; SeenMembers states what they are |
| Allocator.FirstGap | sample.go:451-458 | the scan from slot i: the first candidate whose slot holds another name, or the last index; FirstGapFound and FirstGapCharacterised state it |
| Allocator.Candidate | sample.go:453 | a candidate name starts with the prefix and is longer than it |
| Allocator.CandidateInjective | sample.go:453 | distinct indices give distinct candidate names |
| Allocator.GetUniqueResourceGroupName | sample.go:433-463 | the loops, the sort and the scan return exactly the name or error of the allocator's specification |
| Allocator.CollectPrefixed | sample.go:441-448 | the first loop keeps exactly the listed names with the prefix, in list order, and `any` is set exactly when it kept one |
| Allocator.ScanForGap | sample.go:450-458 | the scan returns the first gap of the sorted names |
| Allocator.PrefixedMembers | sample.go:443-448 | a name is kept exactly when it is listed and has the prefix, and exactly as often as it is listed |
| Allocator.SeenMembers | sample.go:442-449 | the sorted names are sorted, hold exactly the listed prefixed names, each exactly as often as it is listed |
| Allocator.PrefixHeadsSeen | sample.go:449-450 | when the bare prefix is listed it is the first sorted name |
| Allocator.FirstGapFound | sample.go:451-458 | the scan stops at some k: every earlier slot j + 1 holds candidate j, and slot k + 1 does not hold candidate k or k is the last index |
| Allocator.FirstGapCharacterised | sample.go:451-458 | conversely, any such k is where the scan stops |
| Allocator.AllocationOutcome | sample.go:435-438 | a listing error is returned verbatim; a status other than 200 yields "Bad response: " and the code; an error always comes with an empty name; otherwise the name starts with the prefix |
| Allocator.AllocatesPrefixWhenFree | sample.go:449-460 | with a good listing, the bare prefix is returned exactly when it is not listed |
| Allocator.AllocatesFirstGapWhenTaken | sample.go:449-458 | when the prefix is taken, the name returned is candidate k for the least k whose slot holds another name, or for the last index |
| Allocator.GapIsFresh | sample.go:451-458 | on distinct sorted names with one-digit suffixes, the candidate the scan stops at is not among them |
| Allocator.FreshWhenSuffixesAreSingleDigits | sample.go:433-463 | when names are listed once and every prefixed name has at most a one-digit suffix, the allocator returns a name and it is not listed |
| Allocator.InterloperHidesTakenName | sample.go:449-458 | with the prefix and suffixes 0, 1, 2 listed, any prefixed name sorting between suffixes 1 and 2 makes the allocator return suffix 2, which is listed |
| Allocator.TwoDigitSuffixCollides | sample.go:449-458 | with the prefix and suffixes 0, 1, 2 and 10 listed, the allocator returns suffix 2, which is listed |
| Allocator.RepeatedNameCollides | sample.go:443-458 | with the prefix, suffix 1 listed twice, and suffixes 0 and 2 listed, the allocator returns suffix 2, which is listed |
| Setup.MissingAzureAuthMessage | sample.go:428-431 | `newMissingAzureAuthError`: the message naming the setting and its variable; MessageNamesVariable states its ending |
| Setup.UuidMessage | sample.go:393 | the not-a-GUID message naming the variable |
| Setup.FieldErrors | sample.go:397-423 | the error one setting yields, if any; FieldErrorsCharacterised states when |
| Setup.ValidationErrors | sample.go:391-426 | the errors of the four settings in order; ValidationErrorsCharacterised states them |
| Setup.Normalised | sample.go:397-418 | the settings after the identifiers that parse are rewritten; NormalisedCharacterised states it |
| Setup.InitDiagnostics | sample.go:288-318 | what `init` writes to standard error: no diagnostic is modelled under help; otherwise the invalid-argument lines, or the first authentication error |
| Setup.Message | sample.go:397-423 | the text each validation error carries: the missing-setting message with the setting's name and variable, or the not-a-GUID message with the variable |
| Setup.Render | sample.go:299-318 | the text of one diagnostic: "Invalid argument. Details: " with the message and a newline (301), or the raw authentication error (310, 316) |
| Setup.TokenObtained | sample.go:299-318 | `init` leaves a token exactly when help is off, validation finds nothing, and both authentication calls report no error |
| Setup.ReachesToken | sample.go:308-318 | `init` gets as far as requesting the token: help off, validation clean, and the OAuth configuration without error |
| Setup.ValidationErrorsCharacterised | sample.go:391-426 | a setting is reported missing exactly when it is empty; an identifier is reported as not a GUID exactly when it is non-empty and does not parse; the secret is checked only for emptiness; at most four errors, in field order; no error exactly when every setting is acceptable |
| Setup.ErrorsInFieldOrder | sample.go:397-423 | errors appear in the order tenant, subscription, client, secret, with at most one per setting |
| Setup.ErrorOfItsField | sample.go:397-423 | an error is reported exactly when the check of its own setting reports it |
| Setup.FieldErrorsCharacterised | sample.go:397-423 | one setting yields at most one error, about itself: missing exactly when empty, not a GUID exactly when a non-empty identifier fails to parse |
| Setup.NormalisedCharacterised | sample.go:399-418 | each identifier that parses is replaced by its canonical form; every other value, the secret included, is left as read |
| Setup.RevalidationIsStable | sample.go:391-426 | with a parser whose canonical form parses to itself, validating again finds the same errors and rewrites nothing more |
| Setup.MessageNamesVariable | sample.go:428-431 | a missing-setting message ends with the variable name in double quotes; a not-a-GUID message names it in apostrophes |
| Setup.InvalidArguments | sample.go:301-306 | one "Invalid argument" diagnostic per validation error, in order |
| Setup.TokenNeedsValidSettings | sample.go:291-318 | a token is obtained only without help, with every setting present and every identifier a GUID; `init` then writes nothing to standard error |
| Setup.Settings.constructor | sample.go:37-58 | the globals start empty, without help and without token |
| Setup.Settings.ValidateParameters | sample.go:391-426 | returns the specified errors and leaves the settings rewritten into canonical form, help and token untouched |
| Setup.Settings.Init | sample.go:275-319 | records the help flag and the settings read (canonical unless help); the token is set exactly when both authentication calls succeed after a clean validation; the diagnostics are those specified |
| Orchestrator.Plan | sample.go:100-262 | the eleven calls inside the group in program order, each with the exit status its checked failure causes |
| Orchestrator.Execute | sample.go:100-262 | runs a plan and stops after the first failing checked step; ExecuteStopsAtFirstFailure states it |
| Orchestrator.GroupOutcome | sample.go:335-358 | what `createResourceGroup` returns: the allocation error, the creation error with an empty name, or the name |
| Orchestrator.GroupCalls | sample.go:335-358 | the calls `createResourceGroup` makes: the listing, then the creation once a name is chosen |
| Orchestrator.ExpectedRun | sample.go:71-262 | the exit status and calls of `main`: help, token, group, the plan, the deletion; ExitStatusMeaning and DeletesExactlyTheCreatedGroup state its properties |
| Orchestrator.CallsOf | sample.go:100-262 | the calls of a plan, one per step, in order |
| Orchestrator.FirstFailure | sample.go:100-262 | the index of the first step whose checked error is present, or the plan length: no step before it fails |
| Orchestrator.ExecuteStopsAtFirstFailure | sample.go:100-262 | a run makes the calls up to and including the first failing checked step and exits with its status, or makes every call and exits with success |
| Orchestrator.ExecuteThen | sample.go:100-262 | running two plans in sequence: the second runs exactly when the first succeeds, and the calls concatenate |
| Orchestrator.ExecuteDependsOnlyOnChecked | sample.go:100-262 | two outcome scripts that agree on which checked steps fail give the same run |
| Orchestrator.Checked | sample.go:88-262 | the calls whose error `main` acts on: the group creation (94 via 350-354), the virtual network (102), the read-back of each security group (112, 118 via 331), the two subnets (150, 160) and the SSH rule (194) |
| Orchestrator.OnlyCheckedErrorsMatter | sample.go:98-262 | errors of unchecked calls and every status code change neither exit status nor trace; this covers both security-group creations, the HTTP, SQL and DENY-OUT rules, the deletion, and the status of the group creation |
| Orchestrator.HelpMakesNoCalls | sample.go:77-79 | with help: exit status 0 and no call |
| Orchestrator.NoTokenMakesNoCalls | sample.go:81-86 | without a token: exit status 1 and no call |
| Orchestrator.InvalidSettingsStopTheRun | sample.go:81-86 | a missing or malformed setting leaves no token, so the run ends with status 1 before any call |
| Orchestrator.ExecutedCallsArePlanned | sample.go:100-262 | the calls of a run are the first calls of its plan, in order |
| Orchestrator.PlanNeverDeletes | sample.go:100-262 | no call inside the group deletes anything |
| Orchestrator.PlanExits | sample.go:100-197 | every checked step exits with one of the failure statuses 3 to 6 |
| Orchestrator.DeletesExactlyTheCreatedGroup | sample.go:88-98 | if the group cannot be named or created: status 2 and no deletion; otherwise the run starts with the listing and the creation, and ends with the one deletion of that group |
| Orchestrator.ExitStatusMeaning | sample.go:61-75 | the status is always 0 to 6; it is 0 exactly under help, or with a token, a created group and no failing checked step |
| Orchestrator.VirtualNetworkFailure | sample.go:100-105 | a failed virtual network ends the run with status 3 after listing, group, network and deletion |
| Orchestrator.CompleteRun | sample.go:88-262 | when no checked step fails, every planned call is made in program order between the group creation and the deletion, with status 0 |
| Orchestrator.CreateResourceGroup | sample.go:335-358 | lists the groups, and creates the chosen group only when a name was found; returns the name, or the first error with an empty name |
| Orchestrator.DeleteResourceGroup | sample.go:360-366 | one deletion through the executor, whose error it returns |
| Orchestrator.CreateVirtualNetwork | sample.go:368-389 | one creation through the executor, returning "sampleVirtualNetwork" and its error |
| Orchestrator.CreateNetworkSecurityGroup | sample.go:321-333 | creates through the executor, then reads the group back; returns the error of the read, not of the creation |
| Orchestrator.CreateSecurityRule | sample.go:190-193 | one rule through the executor, whose error it returns |
| Orchestrator.CreateSubnet | sample.go:145-149 | one subnet through the executor, whose error it returns |
| Orchestrator.CreateCheckedSecurityGroup | sample.go:111-121 | one security group and the status 4 check on it: the calls and exit status are those `Execute(SecurityGroupSteps(g, name))` states |
| Orchestrator.CreateNetworkAndSecurityGroups | sample.go:100-121 | network, then front-end and back-end groups: the calls and exit status are those `Execute(NetworkSteps(g))` states |
| Orchestrator.CreateSubnets | sample.go:145-162 | the two subnets: the calls and exit status 6 or 0 are those `Execute(SubnetSteps(g))` states |
| Orchestrator.CreateSecurityRules | sample.go:164-262 | the four rules, stopping only when the SSH rule fails |
| Orchestrator.CreateFrontendRules | sample.go:190-222 | SSH and HTTP rules; the check after the HTTP rule reads the SSH rule's error, so only the SSH rule can stop the run |
| Orchestrator.CreateBackendRules | sample.go:239-262 | SQL and DENY-OUT rules, whose outcomes never stop the run |
| Orchestrator.Provision | sample.go:100-262 | the calls and exit status of the whole sequence inside the group are those of the plan |
| Orchestrator.ProvisionThenDelete | sample.go:98-262 | the sequence inside the group followed by the deferred deletion, which leaves the status alone |
| Orchestrator.RunMain | sample.go:71-98 | the exit status and the trace of `main` are the specified run, the deferred deletion included |
| Orchestrator.RunWithToken | sample.go:88-98 | `main` past the help and token checks is the specified run |
| Orchestrator.RunInGroup | sample.go:98-262 | once the group exists, `main` runs the sequence inside it and deletes the group, ending with the status of the first failing checked step or success |
| Orchestrator.Program | sample.go:275-319 | `init` on fresh globals followed by `main`: the diagnostics and the run are the specified ones for the settings read |

## Left out

- The Azure SDK clients, bearer authorizers and request payloads are not modelled: locations, address prefixes, ports, priorities and descriptions. Each remote call is a `Call` naming what it acts on, and its outcome is an input.
- The OAuth configuration and the service-principal token request are the parameter `authenticate`, which yields their two errors. A token is taken to exist exactly when the token request reports no error.
- `guid.Parse` followed by `Stringf(guid.FormatD)` is the parameter `parse`, which yields the canonical text or nothing. Its internals are a library outside the program.
- The `cancel` channel and the channel receives around each call are not modelled. They only wait for the call's outcome, and the channel is never closed.
- Flag parsing and `os.Getenv` are replaced by inputs: the help flag and a `getenv` function. The `-quiet`, `-pause` and `-delay` flags, the output writer, `flag.PrintDefaults`, and the pause and delay before deletion (sample.go:265-272) have no effect on calls or exit status and are left out.
- Text written to standard output and standard error is modelled only as SUCCESS/FAILED reports, failure details and `init`'s diagnostics. The progress messages, the "Fatal Error: Authentication Failed." line and the allocation error `createResourceGroup` prints (sample.go:341) are not modelled. The creation failure's error line (sample.go:352-353) is modelled, as the FAILED report `Cloud.GroupReport`.
- `os.Exit` is the returned exit status.
- Executor.ExecuteWithStatus: its callers must supply an HTTP response whenever a call carries no error (`Status.Inspectable`, part of `Environment.Valid`). The Go code would dereference a nil response there and panic; that panic is not modelled.
- The nil dereferences of `groupList.Response` (sample.go:440), `*groupList.Value` (sample.go:443) and `*rg.Name` (sample.go:444) are not modelled: a listing without error always carries a status code and names, so the panics these would cause cannot happen in the model.
- `createNetworkSecurityGroup` returns the group read back. The model takes that group's name to be the requested one, which is what the rules use.
- `sort.Strings` is modelled as a function, not as an in-place sort. `Text.SortedPermutationUnique` shows that any correct sort yields the same order.
- The code issues four rule calls (SSH, HTTP, SQL, DENY-OUT) and checks only the first. It stops on the error a call returns, not on the SUCCESS/FAILED report. The model follows this.
