/** What a derived token names, and the tokens themselves. */
module Scopes {
  import opened Text
  import opened Base64Url

  type Int64 = n: int | IsInt64(n)

  datatype Scope =
    | Staff(expiresAt: Int64)
    | Job(experiment: string)
    | Agent(platformExperiment: string, agent: string)
    | Coordinator(platformExperiment: string)
    | Runtime(cluster: string, registeredAt: Int64)

  function KindOf(x: Scope): string {
    match x
    case Staff(_) => "staff"
    case Job(_) => "job"
    case Agent(_, _) => "agent"
    case Coordinator(_) => "coordinator"
    case Runtime(_, _) => "runtime"
  }

  function SubjectOf(x: Scope): string {
    match x
    case Staff(expiresAt) => FormatInt(expiresAt)
    case Job(experiment) => experiment
    case Agent(pe, agent) => pe + ['/'] + agent
    case Coordinator(pe) => pe
    case Runtime(cluster, registeredAt) => cluster + ['/'] + FormatInt(registeredAt)
  }

  /** A scope as its constructor writes it. */
  function Written(x: Scope): string { KindOf(x) + [':'] + SubjectOf(x) }

  function ParseSubject(kind: string, subject: string): Option<Scope> {
    if kind == "staff" then
      match ParseInt(subject)
      case None => None
      case Some(seconds) => Some(Staff(seconds))
    else if kind == "job" then Some(Job(subject))
    else if kind == "agent" then
      var parts := Cut(subject, '/');
      if !parts.found || parts.before == "" || parts.after == "" then None else Some(Agent(parts.before, parts.after))
    else if kind == "coordinator" then Some(Coordinator(subject))
    else if kind == "runtime" then
      var parts := Cut(subject, '/');
      match ParseInt(parts.after)
      case None => None
      case Some(micros) => if !parts.found || parts.before == "" then None else Some(Runtime(parts.before, micros))
    else None
  }

  function Parse(scope: string): Option<Scope> {
    var parts := Cut(scope, ':');
    if !parts.found || parts.after == "" then None else ParseSubject(parts.before, parts.after)
  }

  // ----- parsing undoes writing -----------------------------------------------------------------

  /** Every part of the subject is there, and what comes before a slash holds none. */
  predicate Named(x: Scope) {
    match x
    case Staff(_) => true
    case Job(experiment) => experiment != ""
    case Agent(pe, agent) => pe != "" && '/' !in pe && agent != ""
    case Coordinator(pe) => pe != ""
    case Runtime(cluster, _) => cluster != "" && '/' !in cluster
  }

  lemma KindsDiffer(x: Scope)
    ensures ':' !in KindOf(x)
    ensures (KindOf(x) == "staff" <==> x.Staff?) && (KindOf(x) == "job" <==> x.Job?) && (KindOf(x) == "agent" <==> x.Agent?)
    ensures (KindOf(x) == "coordinator" <==> x.Coordinator?) && (KindOf(x) == "runtime" <==> x.Runtime?)
  {
    assert |"staff"| == 5 && |"agent"| == 5 && "staff"[0] == 's' && "agent"[0] == 'a';
  }

  lemma SubjectRead(x: Scope)
    ensures ParseSubject(KindOf(x), SubjectOf(x)) == Some(x) && SubjectOf(x) != "" <==> Named(x)
  {
    hide KindOf, Cut, ParseInt, FormatInt;
    KindsDiffer(x);
    match x
    case Staff(n) => FormatParse(n);
    case Job(_) =>
    case Agent(pe, agent) =>
      CutInverse(SubjectOf(x), '/');
      if '/' !in pe { CutAt(pe, '/', agent); }
    case Coordinator(_) =>
    case Runtime(cluster, n) =>
      CutInverse(SubjectOf(x), '/');
      FormatParse(n);
      if '/' !in cluster { CutAt(cluster, '/', FormatInt(n)); }
  }

  /** Parse gives back what a constructor wrote, exactly when its subject is named in full and no
      part before a slash holds one. */
  lemma ParseUndoesWritten(x: Scope)
    ensures Parse(Written(x)) == Some(x) <==> Named(x)
  {
    hide KindOf, SubjectOf, ParseSubject, Cut;
    KindsDiffer(x);
    CutAt(KindOf(x), ':', SubjectOf(x));
    SubjectRead(x);
  }

  /** What Parse read is what the constructor writes of it, exactly when the number in it, if its kind
      has one, is written as the constructor writes numbers. */
  lemma WrittenUndoesParse(scope: string)
    requires Parse(scope).Some?
    ensures var x := Parse(scope).value;
            var subject := Cut(scope, ':').after;
            var number := if x.Runtime? then Cut(subject, '/').after else subject;
            Written(x) == scope <==> (x.Staff? || x.Runtime? ==> Canonical(number))
  {
    hide Cut, ParseInt, FormatInt, Canonical;
    var x, parts := Parse(scope).value, Cut(scope, ':');
    var inner := Cut(parts.after, '/');
    CutInverse(scope, ':');
    CutInverse(parts.after, '/');
    if x.Staff? { FormatUndoesParse(parts.after); }
    if x.Runtime? { FormatUndoesParse(inner.after); }
    SameSubject(x, parts.after);
  }

  /** A scope is written as it was when its subject is. */
  lemma SameSubject(x: Scope, subject: string)
    ensures KindOf(x) + [':'] + SubjectOf(x) == KindOf(x) + [':'] + subject <==> SubjectOf(x) == subject
    ensures x.Runtime? ==> forall n: string ::
              x.cluster + ['/'] + FormatInt(x.registeredAt) == x.cluster + ['/'] + n <==> FormatInt(x.registeredAt) == n
  {
    hide KindOf, SubjectOf, FormatInt;
    Behind(KindOf(x) + [':'], SubjectOf(x), subject);
    if x.Runtime? {
      forall n: string
        ensures x.cluster + ['/'] + FormatInt(x.registeredAt) == x.cluster + ['/'] + n <==> FormatInt(x.registeredAt) == n
      {
        Behind(x.cluster + ['/'], FormatInt(x.registeredAt), n);
      }
    }
  }

  lemma Behind(a: string, b: string, c: string)
    ensures a + b == a + c <==> b == c
  {
    assert (a + b)[|a|..] == b && (a + c)[|a|..] == c;
  }

  // ----- tokens ---------------------------------------------------------------------------------

  const PREFIX := "hls_"

  function Token(scope: Bytes, mac: Bytes): string { PREFIX + (Encode(scope) + ['.'] + Encode(mac)) }

  /** The scope a token names, whoever made it. */
  function Of(token: string): Option<Bytes> {
    if !(PREFIX <= token) then None
    else
      var parts := Cut(token[|PREFIX|..], '.');
      if !parts.found then None else Decode(parts.before)
  }

  lemma OfUndoesToken(scope: Bytes, mac: Bytes)
    ensures Of(Token(scope, mac)) == Some(scope)
  {
    hide Encode, Decode, Cut;
    assert Token(scope, mac)[|PREFIX|..] == Encode(scope) + ['.'] + Encode(mac);
    DecodeUndoesEncode(scope);
    CutAt(Encode(scope), '.', Encode(mac));
  }
}
