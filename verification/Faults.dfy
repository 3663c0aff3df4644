/** From a process's exit code to whose fault it was. */
module Faults {
  import opened Text

  const EXIT_CODE_UNREACHABLE := 75

  const REASON_CODE_UNREACHABLE := "code_unreachable"
  const REASON_CONTAINER_FAILED := "container_failed"

  function PhaseReasonOfExit(code: int): string {
    if code == EXIT_CODE_UNREACHABLE then REASON_CODE_UNREACHABLE else REASON_CONTAINER_FAILED
  }

  /** How a runtime explains a phase: its reason and what it said. */
  datatype PhaseDetail = PhaseDetail(reason: string, message: string) {
    /** The first line of the message, four hundred characters of it at most. */
    function Detail(): string {
      var line := Cut(message, '\n').before;
      if |line| > 400 then line[..400] else line
    }

    /** The eviction a failure of the environment's ends with, none for a failure of the job's own. */
    function EvictionOfFailure(): Option<string> {
      if reason != REASON_CODE_UNREACHABLE then None
      else if Detail() != "" then Some(WithDetail(REASON_CODE_UNREACHABLE, Detail()))
      else Some(REASON_CODE_UNREACHABLE)
    }
  }

  function WithDetail(code: string, detail: string): string { code + ": " + detail }

  /** The code of a reason, whatever detail follows it. */
  function Code(reason: string): string { Cut(reason, ':').before }

  datatype FaultClass = Workload | Infrastructure | Policy

  const WORKLOAD := {"never_reported_metrics", "silent", "job_too_long", "resource_disbalance", "unschedulable"}

  const INFRASTRUCTURE := {"cluster_unreachable", "workload_gone", "accelerator_type_unobservable",
                           "accelerator_type_mismatch", "stuck_pending", "scale_up_timeout", "code_unreachable", "no_offer"}

  const POLICY := {"stage_cut", "quota_exhaustion", "preempted_for_guaranteed", "experiment_closed", "cancelled",
                   "cluster_withdrawn"}

  function Classify(reason: string): Option<FaultClass> {
    var code := Code(reason);
    if code in WORKLOAD then Some(Workload)
    else if code in INFRASTRUCTURE then Some(Infrastructure)
    else if code in POLICY then Some(Policy)
    else None
  }

  predicate IsInfrastructureFault(reason: string) { Classify(reason) == Some(Infrastructure) }

  /** Whether a process that ended with this code is requeued for free, whatever its runtime said. */
  predicate EndedByEnvironment(code: int, message: string) {
    var eviction := PhaseDetail(PhaseReasonOfExit(code), message).EvictionOfFailure();
    eviction.Some? && IsInfrastructureFault(eviction.value)
  }

  /** A detail never changes what a reason is classified as. */
  lemma DetailKeepsClass(code: string, detail: string)
    requires ':' !in code
    ensures Code(WithDetail(code, detail)) == code && Classify(WithDetail(code, detail)) == Classify(code)
  {
    assert WithDetail(code, detail) == code + [':'] + (" " + detail);
    CutAt(code, ':', " " + detail);
    CutNowhere(code, ':');
  }

  lemma CodeUnreachableIsInfrastructure()
    ensures ':' !in REASON_CODE_UNREACHABLE && IsInfrastructureFault(REASON_CODE_UNREACHABLE)
  {
    hide Cut;
    CutNowhere(REASON_CODE_UNREACHABLE, ':');
    NotWorkload(REASON_CODE_UNREACHABLE);
    assert REASON_CODE_UNREACHABLE in INFRASTRUCTURE;
  }

  lemma NotWorkload(code: string)
    requires |code| == 16
    ensures code !in WORKLOAD
  {
  }

  /** The one exit code that blames the environment, under every message. */
  lemma OnlyUnreachableBlamesEnvironment(code: int, message: string)
    ensures EndedByEnvironment(code, message) <==> code == EXIT_CODE_UNREACHABLE
  {
    hide Classify;
    CodeUnreachableIsInfrastructure();
    var d := PhaseDetail(PhaseReasonOfExit(code), message);
    assert REASON_CODE_UNREACHABLE != REASON_CONTAINER_FAILED by {
      assert REASON_CODE_UNREACHABLE[2] == 'd' && REASON_CONTAINER_FAILED[2] == 'n';
    }
    DetailKeepsClass(REASON_CODE_UNREACHABLE, d.Detail());
  }

  /** What a failure of the environment's ends with: one line, the code of an unreachable repository, and
      after it the first line of what the runtime said, four hundred characters of it at most, where it
      said anything. */
  lemma EvictionIsOneLine(message: string)
    ensures var eviction := PhaseDetail(REASON_CODE_UNREACHABLE, message).EvictionOfFailure();
            var line := Cut(message, '\n').before;
            && eviction.Some?
            && (line == "" ==> eviction.value == REASON_CODE_UNREACHABLE)
            && (line != "" ==> eviction.value == REASON_CODE_UNREACHABLE + ": " + (if |line| > 400 then line[..400] else line))
            && '\n' !in eviction.value && |eviction.value| <= |REASON_CODE_UNREACHABLE| + 402
  {
    hide Cut;
    CutInverse(message, '\n');
    NoNewline();
  }

  lemma NoNewline()
    ensures '\n' !in REASON_CODE_UNREACHABLE && '\n' !in ": "
  {
  }

  /** The reasons a job is evicted for. */
  const REASONS := {"silent", "never_reported_metrics", "quota_exhaustion", "experiment_closed", "cancelled", "stage_cut",
                    "job_too_long", "stuck_pending", "resource_disbalance", "unschedulable", "workload_gone",
                    "cluster_unreachable", "accelerator_type_mismatch", "accelerator_type_unobservable",
                    "preempted_for_guaranteed", "scale_up_timeout", "code_unreachable", "no_offer", "cluster_withdrawn"}

  /** Every reason has a class, and one alone; and nothing else has one. */
  lemma OneClass(reason: string)
    ensures reason in REASONS <==> reason in WORKLOAD || reason in INFRASTRUCTURE || reason in POLICY
    ensures reason in WORKLOAD ==> reason !in INFRASTRUCTURE && reason !in POLICY
    ensures reason in INFRASTRUCTURE ==> reason !in POLICY
  {
  }
}
