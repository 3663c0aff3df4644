/** The branches of a platform experiment, and which of them an agent may write. */
module GitRefs {
  import opened Slugs

  const ROOT := "hl/"
  const HEADS := "refs/heads/"
  const BASELINE := "baseline"

  function BranchPrefix(pe: string): string { ROOT + pe + "/" }

  predicate HasNone(s: string, chars: string) { forall i :: 0 <= i < |s| ==> s[i] !in chars }

  predicate IsUnder(prefix: string, branch: string) {
    prefix <= branch && |branch| > |prefix| && HasNone(branch[|prefix|..], " \t\n")
  }

  function BaselineBranch(pe: string): string { BranchPrefix(pe) + BASELINE }

  predicate IsBaselineAgentBranch(pe: string, branch: string) {
    var beside := BaselineBranch(pe) + "-";
    || branch == BaselineBranch(pe)
    || (beside <= branch && |branch| > |beside| && HasNone(branch[|beside|..], "/ \t\n"))
  }

  /** The segment of an agent's branches. */
  function AgentBranchName(lower: char -> char, name: string): string { SlugOf(lower, name, 0) }

  function AgentBranchPrefix(lower: char -> char, pe: string, name: string): string {
    var segment := AgentBranchName(lower, name);
    if segment == "" || segment == BASELINE || BASELINE + "-" <= segment then "" else BranchPrefix(pe) + segment + "/"
  }

  datatype Role = Baseline | Executor | Reviewer | Researcher | Planner

  datatype Verdict = Admitted | NotABranch | NotTheBaselines | NoBranchName | NotItsOwn | PushesNothing

  function RefusedRefUpdate(lower: char -> char, pe: string, role: Role, name: string, ref: string): Verdict {
    if !(HEADS <= ref) then NotABranch
    else
      var branch := ref[|HEADS|..];
      match role
      case Baseline => if IsBaselineAgentBranch(pe, branch) then Admitted else NotTheBaselines
      case Executor | Reviewer =>
        var own := AgentBranchPrefix(lower, pe, name);
        if own == "" then NoBranchName
        else if IsUnder(own, branch) then Admitted
        else NotItsOwn
      case Researcher | Planner => PushesNothing
  }

  // ----- whose a ref is -------------------------------------------------------------------------

  predicate Slashless(s: string) { forall i :: 0 <= i < |s| ==> s[i] != '/' }

  /** Nothing, or something after a slash. */
  predicate Ends(t: string) { t == "" || t[0] == '/' }

  function SegmentLength(s: string): nat { if |s| == 0 || s[0] == '/' then 0 else 1 + SegmentLength(s[1..]) }

  lemma {:induction false} SegmentLengthIs(a: string, t: string)
    requires Slashless(a) && Ends(t)
    ensures SegmentLength(a + t) == |a|
  {
    if |a| == 0 {
      assert a + t == t;
    } else {
      assert (a + t)[1..] == a[1..] + t;
      SegmentLengthIs(a[1..], t);
    }
  }

  lemma OneSegment(a: string, t: string, b: string, u: string)
    requires Slashless(a) && Slashless(b) && Ends(t) && Ends(u) && a + t == b + u
    ensures a == b && t == u
  {
    SegmentLengthIs(a, t);
    SegmentLengthIs(b, u);
    assert a == (a + t)[..|a|] && b == (b + u)[..|b|];
    assert t == (a + t)[|a|..] && u == (b + u)[|b|..];
  }

  /** The segment below an experiment's branches that is the agent's own. */
  predicate OwnSegment(lower: char -> char, role: Role, name: string, segment: string) {
    Slashless(segment) &&
    if role.Baseline? then segment == BASELINE || BASELINE + "-" <= segment
    else segment == AgentBranchName(lower, name) && segment != BASELINE && !(BASELINE + "-" <= segment)
  }

  function PathFrom(head: string, pe: string, segment: string, t: string): string {
    head + (pe + (['/'] + (segment + t)))
  }

  function Path(pe: string, segment: string, t: string): string { PathFrom(HEADS + ROOT, pe, segment, t) }

  lemma SlugSlashless(lower: char -> char, name: string)
    ensures Slashless(AgentBranchName(lower, name))
  {
    SlugShape(lower, name, 0);
  }

  /** An admitted ref is the agent's own segment below its experiment, and what follows it. */
  lemma AdmittedPath(lower: char -> char, pe: string, role: Role, name: string, ref: string) returns (segment: string, t: string)
    requires RefusedRefUpdate(lower, pe, role, name, ref) == Admitted
    ensures OwnSegment(lower, role, name, segment) && Ends(t) && ref == Path(pe, segment, t)
  {
    hide AgentBranchName, IsUnder, IsBaselineAgentBranch, Path, BranchPrefix;
    var branch := ref[|HEADS|..];
    assert ref == HEADS + branch;
    if role.Baseline? {
      BaselineSegment(pe, branch);
      segment, t := branch[|BranchPrefix(pe)|..], "";
      assert branch == BranchPrefix(pe) + (segment + t);
    } else {
      segment := AgentBranchName(lower, name);
      SlugSlashless(lower, name);
      t := UnderPath(BranchPrefix(pe), segment, branch);
    }
    PathOf(pe, segment, t);
  }

  lemma UnderPath(prefix: string, segment: string, branch: string) returns (t: string)
    requires IsUnder(prefix + segment + "/", branch)
    ensures Ends(t) && branch == prefix + (segment + t)
  {
    hide HasNone;
    var own := prefix + segment + "/";
    t := "/" + branch[|own|..];
    assert branch == own + branch[|own|..];
  }

  lemma PathOf(pe: string, segment: string, t: string)
    ensures Path(pe, segment, t) == HEADS + (BranchPrefix(pe) + (segment + t))
  {
  }

  lemma BaselineSegment(pe: string, branch: string)
    requires IsBaselineAgentBranch(pe, branch)
    ensures BranchPrefix(pe) <= branch
    ensures var segment := branch[|BranchPrefix(pe)|..];
            Slashless(segment) && (segment == BASELINE || BASELINE + "-" <= segment)
  {
    var prefix, beside := BranchPrefix(pe), BaselineBranch(pe) + "-";
    if branch == BaselineBranch(pe) {
      assert branch[|prefix|..] == BASELINE;
    } else {
      var name := branch[|beside|..];
      assert branch == beside + name;
      assert branch[|prefix|..] == BASELINE + "-" + name;
    }
  }

  /** The same ref, or one below the other's path. */
  predicate SameOrBelow(ref: string, other: string) { other == ref || ref + "/" <= other }

  lemma PathMore(head: string, pe: string, a: string, t: string, more: string)
    ensures PathFrom(head, pe, a, t) + more == PathFrom(head, pe, a, t + more)
  {
    assert a + t + more == a + (t + more);
  }

  lemma TwoSegments(head: string, pe: string, a: string, t: string, pe': string, b: string, u: string)
    requires Slashless(pe) && Slashless(pe') && Slashless(a) && Slashless(b) && Ends(t) && Ends(u)
    requires PathFrom(head, pe, a, t) == PathFrom(head, pe', b, u)
    ensures pe == pe' && a == b
  {
    var p, q := ['/'] + (a + t), ['/'] + (b + u);
    assert PathFrom(head, pe, a, t)[|head|..] == pe + p;
    assert PathFrom(head, pe', b, u)[|head|..] == pe' + q;
    OneSegment(pe, p, pe', q);
    assert p[1..] == a + t && q[1..] == b + u;
    OneSegment(a, t, b, u);
  }

  /** Of refs that are the same or one below the other, whoever they are admitted to is of the same
      experiment, and both baseline agents or two whose names make the same segment. */
  lemma OwnersNeverMeet(lower: char -> char, pe: string, role: Role, name: string, ref: string,
                        pe': string, role': Role, name': string, ref': string)
    requires Slashless(pe) && Slashless(pe')
    requires RefusedRefUpdate(lower, pe, role, name, ref) == Admitted
    requires RefusedRefUpdate(lower, pe', role', name', ref') == Admitted
    requires SameOrBelow(ref, ref')
    ensures pe == pe' && (role.Baseline? <==> role'.Baseline?)
    ensures !role.Baseline? ==> AgentBranchName(lower, name) == AgentBranchName(lower, name')
  {
    hide RefusedRefUpdate, PathFrom, AgentBranchName;
    var segment, t := AdmittedPath(lower, pe, role, name, ref);
    var segment', t' := AdmittedPath(lower, pe', role', name', ref');
    var more := ref'[|ref|..];
    assert ref' == ref + more && Ends(more);
    PathMore(HEADS + ROOT, pe, segment, t, more);
    TwoSegments(HEADS + ROOT, pe, segment, t + more, pe', segment', t');
  }

  /** An agent whose name makes a segment of its own may write everything below it, and so may its
      namesakes; one whose name makes none may write nothing. */
  lemma AdmittedBelowOwn(lower: char -> char, pe: string, role: Role, name: string, rest: string)
    requires role.Executor? || role.Reviewer?
    ensures var segment := AgentBranchName(lower, name);
            RefusedRefUpdate(lower, pe, role, name, Path(pe, segment, "/" + rest)) == Admitted <==>
            && segment != "" && segment != BASELINE && !(BASELINE + "-" <= segment)
            && rest != "" && HasNone(rest, " \t\n")
  {
    hide SlugOf, HasNone;
    var segment := AgentBranchName(lower, name);
    var ref := Path(pe, segment, "/" + rest);
    var own := BranchPrefix(pe) + segment + "/";
    assert ref[|HEADS|..] == own + rest;
    assert (own + rest)[|own|..] == rest;
  }

  /** A baseline agent may write the baseline branch, and those beside it whose name is there without
      slash or blank, and no other. */
  lemma BaselineAdmitted(lower: char -> char, pe: string, name: string, segment: string)
    requires Slashless(segment)
    ensures RefusedRefUpdate(lower, pe, Baseline, name, Path(pe, segment, "")) == Admitted <==>
            || segment == BASELINE
            || (BASELINE + "-" <= segment && |segment| > |BASELINE| + 1 && HasNone(segment[|BASELINE| + 1..], "/ \t\n"))
  {
    hide HasNone, BranchPrefix;
    var prefix := BranchPrefix(pe);
    PathOf(pe, segment, "");
    assert segment + "" == segment;
    var ref := Path(pe, segment, "");
    assert ref[|HEADS|..] == prefix + segment;
    BesideBaseline(prefix, segment);
  }

  lemma BesideBaseline(prefix: string, segment: string)
    ensures prefix + segment == prefix + BASELINE <==> segment == BASELINE
    ensures var beside := prefix + BASELINE + "-";
            && (beside <= prefix + segment <==> BASELINE + "-" <= segment)
            && (BASELINE + "-" <= segment ==> (prefix + segment)[|beside|..] == segment[|BASELINE| + 1..])
  {
    var beside := prefix + BASELINE + "-";
    assert (prefix + segment)[|prefix|..] == segment && (prefix + BASELINE)[|prefix|..] == BASELINE;
    assert beside == prefix + (BASELINE + "-");
    if beside <= prefix + segment {
      assert (prefix + segment)[|prefix|..|beside|] == BASELINE + "-";
      assert segment[..|BASELINE| + 1] == BASELINE + "-";
    }
    if BASELINE + "-" <= segment {
      assert segment == BASELINE + "-" + segment[|BASELINE| + 1..];
    }
  }

  /** What a refusal says: that the ref is no branch, that the role pushes nothing, that the agent's name
      makes no segment of its own, or that the branch is another's. */
  lemma RefusalSays(lower: char -> char, pe: string, role: Role, name: string, ref: string)
    ensures var verdict, segment := RefusedRefUpdate(lower, pe, role, name, ref), AgentBranchName(lower, name);
            && (verdict.NotABranch? <==> !(HEADS <= ref))
            && (verdict.PushesNothing? <==> HEADS <= ref && (role.Researcher? || role.Planner?))
            && (verdict.NotTheBaselines? ==> role.Baseline?)
            && (verdict.NoBranchName? <==> HEADS <= ref && (role.Executor? || role.Reviewer?)
                                           && (segment == "" || segment == BASELINE || BASELINE + "-" <= segment))
  {
    hide SlugOf, IsUnder, IsBaselineAgentBranch;
  }

  /** A researcher or a planner pushes nothing, and nobody anything but a branch. */
  lemma NothingElseAdmitted(lower: char -> char, pe: string, role: Role, name: string, ref: string)
    requires RefusedRefUpdate(lower, pe, role, name, ref) == Admitted
    ensures HEADS <= ref && !role.Researcher? && !role.Planner?
  {
    hide SlugOf, IsUnder, IsBaselineAgentBranch;
  }

  /** With a slash in an experiment's id, two agents of two experiments may write the same ref. */
  lemma SlashedIdsMeet(lower: char -> char)
    requires lower('b') == 'b' && lower('c') == 'c'
    ensures exists ref ::
      && RefusedRefUpdate(lower, "a", Executor, "b", ref) == Admitted
      && RefusedRefUpdate(lower, "a/b", Executor, "c", ref) == Admitted
  {
    hide SlugOf, HasNone;
    var ref := Path("a", "b", "/c/x");
    assert ref == Path("a/b", "c", "/x");
    OneLetter(lower, 'b');
    OneLetter(lower, 'c');
    NoBlanks();
    AdmittedBelowOwn(lower, "a", Executor, "b", "c/x");
    AdmittedBelowOwn(lower, "a/b", Executor, "c", "x");
    assert "/" + "c/x" == "/c/x" && "/" + "x" == "/x";
  }

  lemma NoBlanks()
    ensures HasNone("c/x", " \t\n") && HasNone("x", " \t\n")
  {
  }

  lemma OneLetter(lower: char -> char, c: char)
    requires lower(c) == c && 'a' <= c <= 'z'
    ensures AgentBranchName(lower, [c]) == [c]
  {
    assert Lowered(lower, [c]) == [c];
    assert [c][1..] == "" && "" + [c] == [c];
    assert Built("", [c], 0) == [c];
  }
}
