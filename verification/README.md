# HypothesisLoop: a verified model

HypothesisLoop runs research agents against a budget of accelerator-hours. This project models the
decisions its control plane is trusted with and proves what they keep: the budget ledger of a run, the
reconciler that keeps a team of agents at work, the script every job is launched by and the reading of
its last line, the two views of what a job takes, and the codecs and names the rest of the platform
relies on. `dafny verify dfyconfig.toml` checks all of it.

| part | modules | main results |
|---|---|---|
| budget ledger | `Sums`, `Hours`, `Credits`, `Quota`, `Stages`, `LedgerRows`, `Ledger`, `LedgerLaws`, `LedgerCuts`, `LedgerWatch`, `LedgerCap`, `LedgerEnds`, `LedgerFault`, `HeldHoursFault`, `SiblingFault`, `BurstSpendFault`, `UncheckedFault` | in every run the shares account for the budget released, to one rounding error for each rounding, and total spend is capped by it to what each agent spends between two checks of its quota; exactly when they are not |
| agent pool | `AgentPool`, `AgentPoolLaws`, `AgentPoolRuns`, `AgentPoolAnswer`, `AgentPoolExact`, `PoolForms` | the cap of a pass and quiescence after it, each with its exact condition, replacement once and in turn over every run, normal forms of a pool |
| job launch | `Text`, `ExitLine`, `Faults`, `Launch`, `LaunchTold` | for every run under every signal: bounded fetching, what it ends with by what it was answered, the code that is read back, and who is blamed |
| resources | `Resources`, `FairShares` | the placement view and the whole-job view agree; the cluster check refuses nothing placeable; fair shares fit their node |
| codecs and names | `KeyOrder`, `PythonStrings`, `PythonJson`, `Base64Url`, `Scopes`, `Derived`, `Slugs`, `GitRefs`, `JsonBytes`, `EventDetails` | printers and parsers that undo each other, branch ownership, bounded idempotent truncation |

How the model stands to the code:

- Hours are reals. Every law of the ledger takes a rounding: `Millionth` is the platform's `RoundHours`,
  `Exact` none at all, with an error of zero. One theorem is so both the exact law and its error bound.
- Loops of the source are loops here, each proved equal to a specification the laws are about; a map the
  source iterates is read in an arbitrary order. Footprints, which the source changes in place, are
  objects. The launch script, which signals interrupt between any two statements, is a machine of
  statements with a stack of handlers; `wait`, git, the network and the clock answer as they like.
- The steps of the ledger follow the store and the services that call the domain functions (start, late
  join, admission, settlement, the quota check of the reconcile loop, stage boundary), cited below.
- A Go string whose characters matter is its code points; where bytes matter (`Base64Url`), one character
  per byte.

What turned out false of the code, each with an input that shows it and the condition under which the
property does hold:

1. The shares do not always sum to the budget released (`quota.go:22-25`). A late join that takes the last
   guaranteed hour of an ended executor that used nothing makes that agent's burst hours its share, and the
   next join hands them out. `LedgerFault.BudgetIsNoCap` is a run whose budget of 10 hours pays for 25;
   `LedgerLaws.JoinConservesExactly` says exactly which joins do this.
2. A job that is admitted and keeps to its estimate is not always let run to it: the quota check can end it,
   unrefunded, with hours of its hold unspent. A late join counts a running job at what it has cost so far
   (`running_cost.go:77-116`), not at its estimate as `signups_enrol.go:72-73` says, and takes hours the job
   still holds: `HeldHoursFault.AdmittedJobIsEnded` is a job of ten hours ended at six that the same check
   lets run without the join. Another job of the same agent overruns: `SiblingFault.SiblingIsEnded` is a job
   ended one of its five hours in, with nobody joined. Or its tier's hours fall below what the tier's jobs
   hold. `LedgerEnds.EndsEarlyExactly` says exactly for which agents the check can do so, and
   `LedgerEnds.AdmittedJobsRunOut` that in a run without draining joins and without joins that take held hours
   (`LedgerLaws.NextOvertakes`) it never does to an agent whose jobs keep to their holds.
3. A stage boundary counts what a cut agent spent in its own tier's column alone, so what a guaranteed
   agent spent at burst is handed on again. `BurstSpendFault.SpentHoursAreHandedOn` is a run whose budget of
   20 pays for 22; `LedgerLaws.BoundaryReturnsUnspent` and `LedgerCuts.BoundaryConservesExactly` say exactly
   when.
4. A bonus, of which the configuration accepts any size (`config/load.go:133`), can make another agent's
   allocation negative: `Credits.NegativeAllocation`; exactly when, `Credits.AllocationSign` and
   `Credits.AllocationSignRounded`, and when the shares then miss the release, `LedgerCuts.StartConservesExactly`.
5. With more agents of an entry's key at work than it counts, the places `PoolDeficit` returns pass
   `max_agents`, and with all of them filled every pass adds more: `AgentPoolRuns.OverfullGrows`,
   `AgentPoolRuns.OverfullReachesNine`. The store refuses each such join past `max_agents`
   (`signups_enrol.go:332-343`), so the executors at work do not pass it. `AgentPoolExact.CapOfPass` says which passes keep the
   cap, `AgentPoolLaws.CapExactly` and `AgentPoolExact.QuietExactly` which teams keep both promises
   whatever else their pool wants.
6. The command can print the last exit line (`contract/clusterapi/launch.go:22-23` says it never is): it
   still runs when the script has printed the line of a job that is to be killed.
   `Launch.CommandCanForgeLine`; `Launch.EveryRunIsReadBack` says exactly when.
7. The quota check reaches no agent without hours (`reconcile.go:147-151` asks for a positive budget). A late
   join can take the last of an ended agent's burst-only hours while its job, just started, has cost nothing;
   the job then runs unchecked. `UncheckedFault.EmptiedAgentIsUnchecked` is a run whose budget of 10 pays for
   20; `LedgerCap.NextEmpties` says exactly which joins do this, and
   `LedgerCap.EveryCheckReaches` that without one every check reaches every agent with a job that can cost.
8. Under an empty signing secret nothing is minted and yet tokens verify: `Derived.EmptySecretVerifies`. No
   configured service has one, as `config/env.go:175` refuses a secret under 32 characters.

## Model

| member | source | states |
|---|---|---|
| Hours.RoundHoursNearest | controlplane/domain/credits.go:7-9 | a rounded amount is the nearest multiple of a millionth, and of two equally near the one away from zero |
| Credits.AllocationsSumToBudget | controlplane/domain/credits.go:26-35 | for any bonuses whose sum is passed as the total, the allocations of all n agents sum to the budget within n half-millionths, and exactly without rounding |
| Credits.AllocationMonotone | controlplane/domain/credits.go:26-35 | a larger bonus never earns less, rounding included |
| Credits.AllocationSign | controlplane/domain/credits.go:26-35 | before rounding, an allocation is non-negative if and only if the bonuses together are at most n times one plus the agent's own |
| Credits.AllocationSignRounded | controlplane/domain/credits.go:26-35 | as the code rounds it, an allocation is non-negative if and only if it falls below nothing by less than half a millionth, in terms of budget, bonuses and n |
| Credits.NegativeAllocation | controlplane/domain/credits.go:26-35 | three of four agents with a bonus of two shares leave the fourth -1.25 of 10 hours, rounded or not |
| Credits.LateShare | controlplane/domain/credits.go:63-98 | the three loops compute the share, and the map of amounts taken names only executors and holds what the specification takes of each |
| Credits.ShareIsEven | controlplane/domain/credits.go:63-72 | the share times the executors at work and one more is what all left unspent, to one rounding each in both directions, and exactly without rounding |
| Credits.JoinLeavesEven | controlplane/domain/credits.go:63-98 | without rounding, everyone at work ends a join with the newcomer's share unspent if and only if none of them came to it with less |
| Credits.WorkersGiveInProportion | controlplane/domain/credits.go:84-97 | each executor at work gives the same part of what it holds above the share, to one rounding |
| Credits.NeedWithinAbove | controlplane/domain/credits.go:63-98 | after the ended gave, the share never needs more than those at work hold above it, but for the rounding of the share |
| Credits.LateShareConserves | controlplane/domain/credits.go:63-98 | what is taken sums to the newcomer's share: exactly without rounding, and within W over and 2W + 1 under of half a millionth with it, for W at work |
| Credits.LateShareIsFair | controlplane/domain/credits.go:49-98 | nobody gives more than it left unspent, everyone at work keeps what it had or the share less one rounding, and none at work gives before every ended one gave all |
| Credits.EmptiedExactly | controlplane/domain/credits.go:63-98 | an executor gives the whole of its share if and only if it ended, used nothing, and the share needs all of it after those before it |
| Credits.DrainedExactly | controlplane/domain/credits.go:63-98 | a guaranteed executor gives its last guaranteed hour if and only if it ended, used nothing, and the share needs all of it after those before it |
| Quota.TierKeepsShare | controlplane/domain/agent.go:54-59 | whatever the tier, the share is the guaranteed amount, if and only if a guaranteed-tier agent's amount is positive or its burst hours are the same |
| Quota.RatedCostWithinHold | controlplane/domain/experiment.go:276-281 | a job is billed its hold or less if and only if it ran no longer than estimated |
| Quota.RatedCostByTheHour | controlplane/domain/experiment.go:276-281 | a bill is additive in the hours, and over the hours estimated it is the estimate |
| Quota.RemainingExactly | controlplane/domain/quota.go:42-48 | a positive hold is within Remaining if and only if it fits both what the tier's hours and what the share leave |
| Quota.RatedCostRescaled | controlplane/domain/experiment.go:276-281 | scaling estimate and duration alike leaves the bill as it was |
| Stages.ValidateStages | contract/experimentspec/stage.go:39-66 | the loop accepts a ladder if and only if it is valid: one to eight stages of positive length, lengths summing to 100 within a thousandth, shares cut in range and none by the last |
| Stages.BoundaryProgress | controlplane/domain/stage.go:108-114 | the loop computes the cumulative boundary, also past the last stage |
| Stages.BoundariesRise | controlplane/domain/stage.go:108-114 | on a valid ladder boundaries rise strictly from 0 and end within [0.99999, 1.00001] |
| Stages.RunStagesValid | controlplane/domain/stage.go:37-42 | a run's ladder is valid when the one it was made from is; a field of five or more keeps its ladder, and a smaller one has one stage that ends at 1, cuts nobody and has the last stage's job-length cap |
| Stages.StageProgressMonotone | controlplane/domain/stage.go:47-58 | progress never falls as time or consumption grows, with any times unset |
| Stages.ProgressReaches | controlplane/domain/stage.go:47-58 | a boundary of at most 1 is reached if and only if that part of the time has passed or that part of a positive budget was consumed |
| Stages.StageEndsAtIsTheMoment | controlplane/domain/stage.go:85-90 | with nothing consumed the clock is short of a boundary before that moment and has reached it after; at it, exactly when the boundary falls on a whole nanosecond; never when the boundary is above 1 |
| Stages.StageCredit | controlplane/domain/stage.go:96-104 | the loop over the map, in any order, computes the credit of a survivor |
| Stages.LeftByAny | controlplane/domain/stage.go:96-104 | the sum over the cut does not depend on the order the map is read in |
| Stages.CreditConserves | controlplane/domain/stage.go:96-104 | the credits of all survivors sum to the release and what the cut left, to one rounding each |
| LedgerRows.ReserveSound | controlplane/storage/db/admission.go:194-227 | admitting a job of at most Remaining keeps both tiers and their sum within the share, what jobs overran and joins took apart, and keeps the account |
| LedgerRows.ReserveAdmits | controlplane/storage/db/admission.go:181-232 | a job that holds anything becomes the last of its tier's jobs if and only if its agent is not cut or finished and the hold fits the tier and the share, and otherwise nothing changes |
| LedgerRows.SettleSound | controlplane/service/settlement/settlement.go:95-137 | settling a job keeps both tiers and their sum within the share, what jobs overran and joins took apart, and moves no share |
| Quota.SettleBills | controlplane/service/settlement/settlement.go:95-137 | a settlement takes out that job alone and bills exactly its cost, or nothing where it is refunded: settled, observed and admission's count change by exactly that |
| LedgerLaws.SettleSpends | controlplane/service/settlement/settlement.go:76-137 | in a run, a settlement leaves what its agent spent, or lowers it by exactly the refunded cost, and changes no other agent |
| LedgerRows.CheckSound | controlplane/service/controller/reconcile.go:131-216 | the quota check, which ends every job of an agent whose share is spent and every job of a spent tier, keeps the row sound and moves no share |
| LedgerRows.TakenSound | controlplane/storage/db/signups_enrol.go:387-395 | what a join takes leaves the account by that and by what it drains, and the row within its share but for what its running jobs still hold |
| LedgerRows.TakenWithinShare | controlplane/service/platformexperiments/running_cost.go:77-116 | a join can take hours a row's jobs hold if and only if it counts less of the row than admission does and less than its share; what it takes leaves an undrained row within its share if and only if it is at most the share less the admission count |
| LedgerRows.NothingOvertaken | controlplane/service/platformexperiments/running_cost.go:77-116 | a join takes nothing that is held from a row none of whose running jobs has cost less than it holds |
| LedgerRows.SpentWithinAccount | controlplane/domain/quota.go:26-48 | what an agent spent at both tiers is within its account, its stray burst hours, what joins took of its jobs' holds and what its jobs overran |
| Ledger.StartKeepsInv | controlplane/service/platformexperiments/start.go:345-388 | the start's rows balance with the first stage's release and are sound |
| Ledger.JoinKeepsInv | controlplane/storage/db/signups_enrol.go:357-409 | a late join, refused or not, that counts running jobs at their cost so far and others at their hold, keeps the balance, and every row sound with what it took of holds |
| Ledger.CutMapsAgree | controlplane/service/controller/stages_cut.go:33-63 | the maps a boundary reads hand on, summed in any order, what the rows say each cut agent left in its measured column |
| Ledger.AdvanceKeepsInv | controlplane/storage/db/platform_experiments_start.go:187-290 | a boundary that cuts any agents and credits the survivors keeps the balance and every row sound |
| Ledger.NextKeepsInv | controlplane/domain/quota.go:22-48 | every step of the ledger, whatever its arguments, keeps the whole invariant |
| LedgerLaws.EveryRunBalances | controlplane/domain/quota.go:22-25 | after any steps from any start, shares and what cut agents kept equal what was released and drained, to one rounding error for each rounding |
| LedgerLaws.EveryRunSpendsWithin | controlplane/domain/quota.go:22-48 | after any steps, checked or not, total spend is at most the release, the hours drained, stray, taken of holds and overrun, and the drift; and the release at most 1.00001 of the budget |
| LedgerWatch.CheckWatched | controlplane/service/controller/reconcile.go:131-216 | a check keeps every agent within its share but for what its jobs cost between two checks, and leaves one whose share is spent no job that can cost more |
| LedgerEnds.EndsEarlyExactly | controlplane/service/controller/reconcile.go:131-216 | an agent's jobs can be observed on, none past its hold that is not past it already, to where the check ends one that has more than the tolerance of its hold unspent, if and only if some job has that much unspent and, with what running jobs overran, admission's count exceeds a positive share, or the count of the job's tier its positive hours |
| LedgerEnds.AdmittedJobsRunOut | controlplane/service/controller/reconcile.go:131-216 | after any steps none of which drains a row or takes hours that jobs hold, no check of an agent whose jobs cost no more than their holds ends one with more than the tolerance unspent, now or however they run on within their holds |
| LedgerWatch.NoHoursNoCheck | controlplane/service/controller/reconcile.go:147-151 | a check leaves an agent without hours as it is |
| LedgerCap.EveryRunIsCapped | controlplane/domain/quota.go:22-48 | after any steps total spend is at most the release, the hours drained and stray, the drift, and what each agent passed its share by, which is at most what its jobs cost between two checks that reach it; no overrun and no hour taken of a hold adds to it |
| LedgerCap.ChecksCapSpend | controlplane/service/settlement/settlement.go:106-113 | if after every step no agent's jobs cost more than an amount since its last check that reaches it, total spend passes the release by at most that amount for each agent, the drift, and the hours drained and stray |
| LedgerCap.WithinSharesIsWithinBudget | controlplane/domain/quota.go:22-25 | if after every step every live agent is within its share, but for a slack, total spend is within the release but for the slack of each agent, the drift, and the hours drained and stray; with no slack, the promised law |
| LedgerCap.NextEmpties | controlplane/storage/db/signups_enrol.go:357-409 | a step leaves a live agent that had a share without hours if and only if it is an accepted join, the agent has hours of one kind, ended with nothing the join counts, and the share needs them all after those before it; all read before the join |
| LedgerCap.EveryCheckReaches | controlplane/service/controller/reconcile.go:147-151 | after any steps none of which so empties an agent with a job that can cost, every live agent with such a job has a share, and a check starts the cost of ChecksCapSpend anew |
| LedgerLaws.NextDrains | controlplane/storage/db/signups_enrol.go:357-409 | a step adds burst hours to the shares if and only if it is a join of a new agent with a share worth giving that drains a row, all read before the join |
| LedgerLaws.NextOvertakes | controlplane/storage/db/signups_enrol.go:357-409 | what joins took of a row's holds grows if and only if a join is accepted, counts less of the row than admission, and needs of an ended agent, or takes of the excess of one at work, more than is free; all read before the join |
| LedgerLaws.SharesSumToReleased | controlplane/domain/quota.go:22-25 | in every run without a draining join the shares of live agents and what cut agents kept sum to the budget released, within the drift |
| LedgerLaws.JoinConservesExactly | controlplane/domain/quota.go:22-25 | after a run without one, and without rounding, a step leaves the shares summing to the release if and only if it does not drain |
| LedgerLaws.BoundaryReturnsUnspent | controlplane/service/controller/stages_cut.go:33-63 | a boundary hands on what a cut agent left unspent if and only if it spent nothing in the other column or all of the measured one, and otherwise more; of an agent left on burst hours it hands on nothing |
| LedgerCuts.KeptIsMeasured | controlplane/domain/stage.go:96-104 | what a boundary keeps of a cut agent's share is the smaller of the share and its measured use, and what it spent is unchanged |
| LedgerCuts.SharesAndSpendSumToReleased | controlplane/domain/quota.go:22-25 | in every run without a draining join whose boundaries cut only agents that spent as they measure, live shares and what cut agents spent sum to the budget released, within the drift |
| LedgerCuts.BoundaryConservesExactly | controlplane/storage/db/platform_experiments_start.go:187-290 | after such a run, without rounding, a boundary leaves that sum at the release if and only if every agent it cuts spent nothing in the other column and no more than its share, and otherwise above it |
| LedgerCuts.StartConservesExactly | controlplane/service/platformexperiments/start.go:345-388 | whatever the bonuses, without rounding, the shares of a start sum to the first release if and only if no guaranteed-tier agent's allocation is negative or the burst fraction is one |
| LedgerFault.BudgetIsNoCap | controlplane/domain/quota.go:22-25 | a run of two joins, with a budget of 10 hours all released, that spends 25 with no job past its estimate and no agent past its share |
| HeldHoursFault.AdmittedJobIsEnded | controlplane/service/platformexperiments/running_cost.go:77-116 | a run in which a job holding 10 hours for 10 is ended and settled at 6 because a join took 4 of them, and the run without the join in which the same check lets it run |
| SiblingFault.SiblingIsEnded | controlplane/service/controller/reconcile.go:131-216 | a run with no join in which two jobs of five hours hold a share of ten, one runs nine, and the check ends the other at one |
| UncheckedFault.EmptiedAgentIsUnchecked | controlplane/service/controller/reconcile.go:147-151 | a run that spends 20 of a budget of 10 with nothing drained, stray or overrun, the agent checked after the join and after its job ran |
| BurstSpendFault.SpentHoursAreHandedOn | controlplane/service/controller/stages_cut.go:33-63 | a run of five executors, four cut, one of which spent its share at burst, that spends 22 of a budget of 20 with nothing drained or overrun and no agent past its share; the cap is attained |
| AgentPool.PoolDeficit | controlplane/domain/agent_pool.go:154-197 | the loops compute, entry by entry with the room each leaves, the places and holds the laws below are about |
| AgentPoolAnswer.AnswerInTurn | controlplane/domain/agent_pool.go:164-195 | of each key the places answered name, in order, the first of its non-early ended, at most what the hour allows; the next are held for the limit only once it is reached; a place is nobody's only once all are named or held; early ends are held in order; and every place is an entry's of the pool |
| AgentPoolAnswer.AnswerFillsAll | controlplane/domain/agent_pool.go:164-195 | and no fewer: early ends are held as far as the entry wants, and all else it wants is answered or held for the limit, as far as the room the entries before it leave an executor's |
| AgentPoolLaws.ApplyPlacesAt | controlplane/domain/agent_pool.go:147-195 | filling the places answered one by one makes, of each key, so many more at work, the named no longer among its ended, and as many recent |
| AgentPoolLaws.FillFacts | controlplane/domain/agent_pool.go:164-195 | an entry's places go to its non-early ended from the first on, at most what the hour allows; what fits is filled or held, a hold for the limit only once it is reached; and the entry is never taken past its count |
| AgentPoolLaws.PassKeepsCap | controlplane/domain/agent_pool.go:155-182 | executors at work and the executor places answered are at most max_agents, or those at work, and the surplus of overfull entries |
| AgentPoolLaws.NoSurplus | controlplane/domain/agent_pool.go:165-182 | that surplus is nothing if and only if no executor entry is overfull |
| AgentPoolLaws.SurplusIsAdded | controlplane/domain/agent_pool.go:155-182 | the bound is attained by every pool: with nobody ended and room, a last entry that wants enough takes all the room and all the surplus |
| AgentPoolExact.PassAccounts | controlplane/domain/agent_pool.go:155-182 | in every pass, with room or without, what is added, what the limit holds and what room is left sum to what there was to give, the room and the surplus, a lack of room being charged to the first executor entry alone |
| AgentPoolExact.CapOfPass | controlplane/domain/agent_pool.go:147-182 | a given pass keeps the cap if and only if what it has to give beyond its room is left or held; with room, if and only if the surplus is |
| AgentPoolLaws.CapExactly | controlplane/domain/agent_pool.go:147-182 | whatever max_agents is, whoever ended and whatever one more entry wants, the pass keeps executors within max_agents or those at work, if and only if no executor entry is overfull |
| AgentPoolExact.QuietExactly | controlplane/domain/agent_pool.go:154-197 | whatever max_agents is, whoever ended and whatever entries stand before and after, a second pass adds nothing and holds the same, if and only if no executor entry is overfull |
| AgentPoolRuns.PassIsQuiescent | controlplane/domain/agent_pool.go:154-197 | with distinct keys, ended agents listed once and none overfull, once the places answered are filled one by one a second pass in the hour answers none and holds the very places the first held |
| AgentPoolRuns.ReplacedOnce | controlplane/domain/agent_pool.go:120-195 | over any run of passes applied as answered, ends and changes, the agents named as replaced of a key are a prefix of its non-early ended, each once and under one key, none that ended early |
| AgentPoolRuns.OverfullGrows | controlplane/domain/agent_pool.go:147-182 | with an overfull entry between two others the bound is attained and every pass adds two more |
| AgentPoolRuns.OverfullReachesNine | controlplane/domain/agent_pool.go:147-182 | from three executors at work, of five at most, all beyond their entry's count, two passes with their places filled reach seven and nine |
| PoolForms.Capped | controlplane/domain/agent_pool.go:84-96 | the result wants the smaller of what was wanted and a non-negative max_agents, leaves researchers alone, and lowers an entry only when every later executor entry is zero |
| PoolForms.CappedIsUnique | controlplane/domain/agent_pool.go:84-96 | no other pool is lowered from the end to that total |
| PoolForms.Executors | controlplane/domain/agent_pool.go:34-42 | the loop counts the executors wanted, which every normal form below keeps |
| PoolForms.Resolve | controlplane/domain/agent_pool.go:47-64 | refused at the first entry no agent can be started as, otherwise the launched entries merged by key |
| PoolForms.MergeKeeps | controlplane/domain/agent_pool.go:47-64 | merging keeps every key's total and the executors wanted, and names each key once in the order it first appeared |
| PoolForms.ResolvedKeeps | controlplane/domain/agent_pool.go:47-64 | a resolved pool wants as many executors, is refused nowhere and resolves to itself |
| PoolForms.AtWorkOf | controlplane/domain/agents_at_work.go:20-36 | with distinct keys the entries' counts and those outside the team sum to everyone at work, each counted once |
| ExitLine.FindExitLine | contract/clusterapi/launch.go:29-40 | the backward scan finds the last line that reads as an exit line |
| ExitLine.ParseExitLine | contract/clusterapi/launch.go:42-62 | the loop reads a line if and only if it is three key=number fields of the three keys, a repeated key's last value counting |
| ExitLine.WrittenReadsBack | controlplane/domain/launch.go:30-32 | the line the script prints is read back as the code and times it was printed with |
| ExitLine.WrittenAmongBlanks | contract/clusterapi/launch.go:29-40 | also with blanks around it |
| ExitLine.ScriptsLineIsFound | contract/clusterapi/launch.go:22-40 | whatever was printed before it, the script's line is found, unless what follows holds another |
| Faults.DetailKeepsClass | controlplane/domain/constants.go:174-184 | a detail never changes the code or the fault class of a reason |
| Faults.EvictionIsOneLine | controlplane/domain/constants.go:343-361 | an unreachable repository evicts with its code, and after it the first line of the message, at most 400 characters of it, where there is one |
| Faults.OneClass | controlplane/domain/fault_class.go:37-81 | each of the nineteen eviction reasons has one class, and nothing else has any |
| Faults.OnlyUnreachableBlamesEnvironment | contract/clusterapi/phase.go:87-92 | through the phase's reason, the eviction and the fault class, an exit code is the environment's fault if and only if it is 75, under every message |
| Launch.NextKeepsInv | controlplane/domain/launch.go:30-101 | every statement and signal keeps: what was fetched, slept and started at each statement, and that the topmost handler which printed its line printed the last |
| Launch.EveryRunBlamesFairly | controlplane/domain/launch.go:73-90 | in every run at most 7 tries and 195 seconds of pauses, and the environment is blamed only when the command never started and all 7 were made |
| Launch.EveryRunIsReadBack | controlplane/domain/launch.go:30-101 | of every run that ended by itself the reader finds the script's own code and start, whatever was printed before its last line, unless something printed after it reads as an exit line, and then it finds that |
| Launch.EveryRunReadBlamesFairly | contract/clusterapi/launch.go:29-40 | of every run that ended by itself with no exit line after its last, the code found blames the environment only when the command never started and all 7 tries were made |
| LaunchTold.EveryRunEndsAs | controlplane/domain/launch.go:33-101 | every run that ended by itself ended with 137 from overdue, 143 from TERM before the process was known, 1 where the directory or the checkout failed, 1 or 75 by the probe's answer after seven failed fetches, and else the status the last wait answered, 75 become 1 |
| LaunchTold.ProbeBlames | controlplane/domain/launch.go:73-81 | a run that ended from the probe blames the environment if and only if the repository did not answer it |
| LaunchTold.WaitingEnds | controlplane/domain/launch.go:88-95 | the waiting loop is left at the first wait answered with no TERM taken since it last began, and begun again otherwise; and the command started after a fetch and a checkout that succeeded, every earlier fetch having failed |
| LaunchTold.SignalsTakenOnce | controlplane/domain/launch.go:43-61 | a signal calls its handler until the handler has turned it off, and then changes nothing; the timer runs from the stop until finish kills it |
| LaunchTold.EveryRunTimes | contract/clusterapi/launch.go:15-19 | with nothing after it that reads as one, the line found is the script's code, its start, and what the clock said when it was printed |
| Launch.CommandCanForgeLine | contract/clusterapi/launch.go:22-23 | for every exit line there is a run that ends with 137 of which the command's line is found instead |
| Resources.Footprint.Add | controlplane/domain/resource.go:47-49 | adds to one dimension in place, zero where there was none, and changes no other |
| Resources.Footprint.Scale | controlplane/domain/resource.go:54-60 | a new footprint of every dimension times n |
| Resources.Footprint.AddFootprint | controlplane/domain/resource.go:64-68 | in place the sum of both, dimension by dimension, also of a footprint with itself |
| Resources.Footprint.Sub | controlplane/domain/resource.go:73-82 | a new footprint of the difference, negative where only the other has a dimension |
| Resources.Fits | controlplane/domain/resource.go:89-100 | the loop accepts if and only if every dimension asked for is there, one not reported counting as zero |
| Resources.FitsInTurn | controlplane/domain/resource.go:73-100 | two footprints fit together if and only if the second fits in what the first leaves |
| Resources.Nodes | contract/clusterapi/desired.go:372-384 | the count is the sum of the replicas of the job's node groups, grouped or not |
| Resources.TotalAccelerators | contract/clusterapi/desired.go:362-368 | the loop sums accelerators over the node groups |
| Resources.NodeResources | controlplane/domain/resource.go:177-193 | exactly the readable positive amounts of the group's cpu, in thousandths, memory and storage |
| Resources.NodeShapes | controlplane/domain/resource.go:162-171 | each group's shape repeated by its replicas, in group order |
| Resources.UngroupedShapes | contract/clusterapi/desired.go:344-384 | an ungrouped job is NumNodes shapes of its own quantities and accelerators, one where it names none |
| Resources.FootprintOf | controlplane/domain/experiment.go:298-315 | the in-place accumulation over groups computes the vector the views are compared on |
| Resources.ViewsAgree | controlplane/domain/resource.go:162-193 | one shape per node, and in every dimension the shapes' sum is the footprint's amount, accelerators the job's total |
| Resources.PlaceableFits | controlplane/domain/resource.go:84-100 | any assignment of a job's shapes that is within every node's capacity implies that the cluster check passes |
| Resources.FittingMayHaveNoPlace | controlplane/domain/resource.go:157-161 | the converse fails: two nodes of one core and a job that asks for two |
| FairShares.LargestWithinExact | controlplane/domain/resource.go:134-147 | an error if and only if nothing is installed, and otherwise the largest whole amount not above the exact share |
| FairShares.SharesWithinNode | controlplane/domain/resource.go:134-147 | the shares of holders within what is installed sum to at most the node's total, and the holder of all has all |
| FairShares.Superadditive | controlplane/domain/resource.go:134-147 | splitting a holding never gains |
| FairShares.Monotone | controlplane/domain/resource.go:134-147 | more total or more held never earns less, more installed never more |
| FairShares.AtLeastTwiceFloored | controlplane/domain/resource.go:141-146 | multiplying first is never below flooring one accelerator's share first |
| PythonStrings.WritePythonString | controlplane/domain/agent_type.go:468-496 | the loop writes the quoted, escaped string |
| PythonStrings.CharsRead | controlplane/domain/agent_type.go:468-496 | a reader of section 7 of RFC 8259, surrogate pairs included, gets every string back and stops at its quote |
| PythonStrings.EscapeIsPythons | controlplane/domain/agent_type.go:486-492 | characters past ASCII are four lower-case hexadecimal digits, a pair of them past the basic plane, and every plain ASCII character itself |
| PythonJson.WritePythonJSON | controlplane/domain/agent_type.go:401-447 | it succeeds if and only if nothing in the value is foreign, and then writes one text whatever order maps yield their keys in |
| PythonJson.ParseUndoesPrint | controlplane/domain/agent_type.go:401-447 | a reader of RFC 8259 gets every nested value back from its text |
| PythonJson.PrintedOnce | controlplane/domain/agent_type.go:401-447 | two values never have the same text |
| PythonJson.PrintedAsPython | controlplane/domain/agent_type.go:390-447 | arrays and objects are their items and members joined by a comma and a blank, keys in order and followed by a colon and a blank |
| PythonJson.PrintedPrintable | controlplane/domain/agent_type.go:390-399 | the text is printable ASCII alone |
| KeyOrder.OneOrder | controlplane/domain/agent_type.go:404-408 | a set of keys has one sorted order |
| KeyOrder.FirstDifferenceDecides | controlplane/domain/agent_type.go:404-408 | the order is ascending: the first character two keys differ in decides, and a key comes before those it begins |
| Base64Url.DecodeUndoesEncode | contract/scope/scope.go:96-101 | unpadded base64url is decoded to what was encoded and holds no dot |
| Base64Url.EncodeExamples | contract/scope/scope.go:96-101 | examples of sections 5 and 10 of RFC 4648, without padding |
| Scopes.ParseUndoesWritten | contract/scope/scope.go:30-94 | Parse gives back what a constructor wrote if and only if every part of the subject is named and the part before a slash holds none |
| Scopes.WrittenUndoesParse | contract/scope/scope.go:62-94 | what Parse read is what the constructor writes of it if and only if the number of a staff or runtime scope is written without plus sign, leading zero or negative zero |
| Text.FormatUndoesParse | contract/scope/scope.go:62-94 | a number that was read is written back as it was if and only if it is in that form |
| Scopes.OfUndoesToken | contract/scope/scope.go:99-118 | the scope a token names is the one it was made of |
| Derived.VerifiesWhatIsMinted | controlplane/auth/derived.go:16-59 | a token is accepted as a principal if and only if Mint makes it of a scope that names the principal, and of no other scope |
| Derived.MintedIsVerified | controlplane/auth/derived.go:16-43 | minting any named scope succeeds and its token verifies as that scope |
| Derived.EmptySecretVerifies | controlplane/auth/derived.go:16-43 | under the empty secret Mint makes nothing and verification still accepts |
| Slugs.Slug | contract/gitrefs/gitrefs.go:45-59 | the loop with its early exit computes the slug |
| Slugs.SlugShape | contract/gitrefs/gitrefs.go:43-59 | always runs of [a-z0-9] joined by single dashes, within a positive limit |
| Slugs.SlugFixed | contract/gitrefs/gitrefs.go:43-59 | a text is its own slug if and only if it has that shape and is within the limit |
| Slugs.SlugIdempotent | contract/gitrefs/gitrefs.go:43-59 | slugging twice is slugging once |
| Slugs.SlugIsItsWords | contract/gitrefs/gitrefs.go:43-59 | without a limit the slug is the lower-cased text's runs joined by dashes |
| Slugs.LimitedSlugIsCut | contract/gitrefs/gitrefs.go:43-59 | a limited slug is the whole one cut at the limit, without the dash the cut may leave |
| GitRefs.OwnersNeverMeet | controlplane/domain/gitrefs.go:29-51 | for slash-free experiment ids, refs that are equal or one below the other are admitted only to agents of one experiment, both baseline agents or of the same segment |
| GitRefs.AdmittedBelowOwn | controlplane/domain/gitrefs.go:40-49 | an executor or reviewer may write a ref below its segment if and only if its name makes a segment outside the baseline's place and the rest is there without blanks |
| GitRefs.BaselineAdmitted | contract/gitrefs/gitrefs.go:34-41 | a baseline agent may write a ref of one segment below its experiment if and only if it is baseline, or baseline-name with a name without slash or blank |
| GitRefs.RefusalSays | controlplane/domain/gitrefs.go:29-51 | which refusal is answered: no branch, a role that pushes nothing, a name that makes no segment, or another's branch |
| GitRefs.NothingElseAdmitted | controlplane/domain/gitrefs.go:29-51 | nothing but branches is admitted, and nothing to a researcher or a planner |
| GitRefs.SlashedIdsMeet | contract/gitrefs/gitrefs.go:12-72 | with a slash in an id two agents of two experiments may write one ref |
| EventDetails.EventDetail | controlplane/domain/event_detail.go:20-43 | the two loops compute the detail |
| EventDetails.SizeIsBytes | controlplane/domain/event_detail.go:47-55 | what is counted is the number of UTF-8 bytes of the text's JSON, escape by escape |
| EventDetails.ShownReadsBack | controlplane/domain/event_detail.go:45-55 | that JSON is read back as the text by a reader of section 7 of RFC 8259 |
| EventDetails.ShownOfBoth | controlplane/domain/event_detail.go:20-30 | every character but U+0000-001F and U+007F-009F, newline and tab apart, is kept, in order |
| JsonBytes.Utf8Read | controlplane/domain/event_detail.go:54 | the bytes counted are UTF-8: a first byte that says how many there are, continuation bytes, and the code point they spell |
| EventDetails.DetailIsSmallAndShown | controlplane/domain/event_detail.go:10-43 | the UTF-8 of its JSON text is at most 4096 bytes, and no control character but newline and tab is in it |
| EventDetails.DetailFixed | controlplane/domain/event_detail.go:16-43 | a text stays as it is if and only if its JSON takes at most 4096 bytes and it has no other control character, so the detail of a detail is itself |
| EventDetails.DetailKeepsMost | controlplane/domain/event_detail.go:31-43 | when it cuts, exactly the prefixes no longer than what is kept leave, with the marker, at most 4096 bytes of JSON |

## Left out

- PlaceableFits: a placement is within capacity on every node, also on nodes it puts nothing on, so no node's free amount may be negative.
- StageCredit: asks for a survivor, because the store divides only when there is one; a boundary with none withholds the release in `Ledger.Advance`.
- Capped: asks for counts that are not negative, which a pool's schema refuses.
- StartKeepsInv: asks that no allocation is negative; `LedgerCuts.StartConservesExactly` says what a start does otherwise, and no step after such a start is modelled.
- JoinConservesExactly: without rounding, as the drift can hide a drain smaller than it; with rounding `LedgerLaws.SharesSumToReleased` bounds the sum.
- BoundaryConservesExactly: without rounding, for the same reason; with rounding `LedgerCuts.SharesAndSpendSumToReleased` bounds the sum.
- QuietExactly: exact over all pools around a team, not for one given pool.
- LateShare: asks for distinct agent ids, which the store's rows have by key.
- VerifiesWhatIsMinted: says nothing of forging a mac, which is any function of the secret and the scope.
- float64 arithmetic but for RoundHours: amounts are reals; int64 overflow: integers are unbounded.
- The quota of the baseline agent, and the run budget read again at each boundary as the budget less what the baseline spent: one budget holds for the run.
- Hours of other resources.
- Preemption and requeue of a job, which settle the hours it ran and rescale its estimate: a job's observed hours only grow until it ends.
- When the reconcile loop checks a quota: a check may come after any step, and `LedgerCap` bounds spend by what a check is late by.
- The use a join counts is read at the join, where the service reads it shortly before.
- Executors cut because max_agents or a pool entry was lowered.
- Jobs of cut agents are settled at the boundary itself, where the controller stops them right after it.
- When boundaries fall and whom they cut: `Ledger` takes any boundary and any set of agents.
- Time passing between passes of the pool: joins, departures and the hour's counts change freely between them.
- The launch script before both traps are set, its choice of a work directory, and what `wait` returns: any byte.
- Quantity, number and model-reference syntax, lower-casing and HMAC are parameters or opaque text.
- PoolOf, ClassifyCounts, CheckpointWindowGrants, HoldsLine, CapacityFootprint, EstimateHeld, TakeEstimate and CurrentStageDef: each adds easy members only.
- The scheduler's placement loop, HTTP, configuration, accounts, the UI and the runtimes.
