/**
 Secret bookkeeping of backup jobs (server/src/jobs/jobs.service.ts, create,
 update and remove): every job's repository points at a password secret and,
 if the job overrides its connection's credentials, at an override secret.
 Both belong to the job alone.

 Identifiers of new rows are parameters, and so is whether the database
 transaction that links a new secret to its repository commits: secrets are
 written outside of it. A request is handled to its end before the next one.
 */
module JobSecrets {
  import opened Wrappers

  type SecretId = nat
  type JobId = nat
  type TargetId = nat
  type Fields = map<string, string>

  /** `Foreign` secrets belong to connections; jobs never touch them. */
  datatype Secret = Password(text: string) | Override(fields: Fields) | Foreign(text: string)

  /** The repository of a job. No target means the local file system. */
  datatype Repo = Repo(target: Option<TargetId>, password: SecretId, credential: Option<SecretId>)

  datatype State = State(secrets: map<SecretId, Secret>, jobs: map<JobId, Repo>)

  /** Which fields a job may override, by connection; no entry means the user of a call may not use it. */
  type Backends = map<Option<TargetId>, set<string>>

  datatype TargetChange = SameTarget | ToTarget(target: Option<TargetId>)
  datatype CredentialChange = Untouched | Cleared | Given(values: Fields)

  datatype UpdateRequest = UpdateRequest(target: TargetChange, password: Option<string>, credentials: CredentialChange)

  datatype CreateRequest = CreateRequest(target: Option<TargetId>, password: string, credentials: Fields)

  /** The validated override: fields that may not be overridden are refused, empty ones dropped. */
  function BuildOverride(allowed: set<string>, values: Fields): Option<Fields> {
    if exists name :: name in values && name !in allowed then None
    else Some(map name | name in values && values[name] != "" :: values[name])
  }

  // --- The account -------------------------------------------------------------------------

  /** The secrets a repository points at. */
  function SecretsOf(repo: Repo): set<SecretId> {
    {repo.password} + if repo.credential.Some? then {repo.credential.value} else {}
  }

  function Held(s: State, job: JobId): set<SecretId> {
    if job in s.jobs then SecretsOf(s.jobs[job]) else {}
  }

  /** A repository points at stored secrets of the right type. */
  predicate RepoOk(repo: Repo, secrets: map<SecretId, Secret>) {
    && repo.password in secrets && secrets[repo.password].Password?
    && (repo.credential.Some? ==> repo.credential.value in secrets && secrets[repo.credential.value].Override?)
  }

  /** No dangling reference and no sharing. */
  ghost predicate Linked(s: State) {
    && (forall j :: j in s.jobs ==> RepoOk(s.jobs[j], s.secrets))
    && (forall j, k :: j in s.jobs && k in s.jobs && j != k ==> Held(s, j) !! Held(s, k))
  }

  ghost predicate Owned(s: State, id: SecretId) {
    exists j :: j in s.jobs && id in Held(s, j)
  }

  /** Job-owned secrets that no live repository points at. */
  ghost function Orphans(s: State): set<SecretId> {
    set id | id in s.secrets && !s.secrets[id].Foreign? && !Owned(s, id)
  }

  ghost function Foreigners(s: State): map<SecretId, Secret> {
    map id | id in s.secrets && s.secrets[id].Foreign? :: s.secrets[id]
  }

  /** The job-owned secrets are exactly those live repositories point at, each from one place. */
  ghost predicate Conserved(s: State) {
    Linked(s) && Orphans(s) == {}
  }

  // --- The single writes, and what each does to the account ----------------------------------

  function Put(s: State, id: SecretId, secret: Secret): State {
    s.(secrets := s.secrets[id := secret])
  }

  function Drop(s: State, id: SecretId): State {
    s.(secrets := s.secrets - {id})
  }

  function Link(s: State, job: JobId, repo: Repo): State {
    s.(jobs := s.jobs[job := repo])
  }

  function Unlink(s: State, job: JobId): State {
    s.(jobs := s.jobs - {job})
  }

  lemma PutNew(s: State, id: SecretId, secret: Secret)
    requires Linked(s) && id !in s.secrets && !secret.Foreign?
    ensures Linked(Put(s, id, secret)) && Foreigners(Put(s, id, secret)) == Foreigners(s)
    ensures Orphans(Put(s, id, secret)) == Orphans(s) + {id}
  {
  }

  lemma PutOver(s: State, id: SecretId, secret: Secret)
    requires Linked(s) && id in s.secrets
    requires (s.secrets[id].Password? && secret.Password?) || (s.secrets[id].Override? && secret.Override?)
    ensures Linked(Put(s, id, secret)) && Foreigners(Put(s, id, secret)) == Foreigners(s)
    ensures Orphans(Put(s, id, secret)) == Orphans(s)
  {
  }

  lemma DropOrphan(s: State, id: SecretId)
    requires Linked(s) && id in Orphans(s)
    ensures Linked(Drop(s, id)) && Foreigners(Drop(s, id)) == Foreigners(s)
    ensures Orphans(Drop(s, id)) == Orphans(s) - {id}
  {
  }

  lemma OwnedAfterLink(s: State, job: JobId, repo: Repo, id: SecretId)
    requires Linked(s)
    ensures Owned(Link(s, job, repo), id) <==> id in SecretsOf(repo) || (Owned(s, id) && id !in Held(s, job))
  {
    var s' := Link(s, job, repo);
    if id in SecretsOf(repo) {
      assert id in Held(s', job);
    } else if Owned(s, id) {
      var j :| j in s.jobs && id in Held(s, j);
      assert Held(s', j) == if j == job then SecretsOf(repo) else Held(s, j);
    }
    if Owned(s', id) {
      var j :| j in s'.jobs && id in Held(s', j);
      assert j != job ==> id in Held(s, j);
    }
  }

  /** A repository takes up orphans or keeps what it had; what it had and does not keep is an orphan. */
  lemma LinkJob(s: State, job: JobId, repo: Repo)
    requires Linked(s) && RepoOk(repo, s.secrets)
    requires forall id :: id in SecretsOf(repo) ==> id in Orphans(s) || id in Held(s, job)
    ensures Linked(Link(s, job, repo)) && Foreigners(Link(s, job, repo)) == Foreigners(s)
    ensures Orphans(Link(s, job, repo)) == Orphans(s) + Held(s, job) - SecretsOf(repo)
  {
    var s' := Link(s, job, repo);
    forall j | j in s'.jobs && j != job ensures Held(s', j) == Held(s, j) && Held(s, j) !! SecretsOf(repo) {
      forall id | id in SecretsOf(repo) ensures id !in Held(s, j) {
        assert id in Orphans(s) ==> !Owned(s, id);
      }
    }
    forall j | j in s'.jobs ensures RepoOk(s'.jobs[j], s'.secrets) {
      assert j != job ==> RepoOk(s.jobs[j], s.secrets);
    }
    HeldIsStored(s, job);
    forall id ensures id in Orphans(s') <==> id in Orphans(s) + Held(s, job) - SecretsOf(repo) {
      OwnedAfterLink(s, job, repo, id);
    }
  }

  lemma HeldIsStored(s: State, job: JobId)
    requires Linked(s)
    ensures forall id :: id in Held(s, job) ==> id in s.secrets && !s.secrets[id].Foreign? && Owned(s, id)
  {
  }

  lemma UnlinkJob(s: State, job: JobId)
    requires Linked(s)
    ensures Linked(Unlink(s, job)) && Foreigners(Unlink(s, job)) == Foreigners(s)
    ensures Orphans(Unlink(s, job)) == Orphans(s) + Held(s, job)
  {
    var s' := Unlink(s, job);
    forall j | j in s'.jobs ensures RepoOk(s'.jobs[j], s'.secrets) && Held(s', j) == Held(s, j) {
      assert RepoOk(s.jobs[j], s.secrets);
    }
    HeldIsStored(s, job);
    forall id ensures Owned(s', id) <==> Owned(s, id) && id !in Held(s, job) {
      if Owned(s, id) && id !in Held(s, job) {
        var j :| j in s.jobs && id in Held(s, j);
        assert j in s'.jobs && id in Held(s', j);
      }
      if Owned(s', id) {
        var j :| j in s'.jobs && id in Held(s', j);
        assert id in Held(s, j);
      }
    }
  }

  // --- What the calls do ---------------------------------------------------------------------

  /** What an update does to the override. */
  datatype Plan =
    | KeepOverride
    | DropOverride
    | MergeOverride(fields: Fields)
    | NewOverride(fields: Fields)

  function TargetAfter(repo: Repo, change: TargetChange): Option<TargetId> {
    if change.ToTarget? then change.target else repo.target
  }

  predicate Moves(repo: Repo, change: TargetChange) {
    change.ToTarget? && change.target != repo.target
  }

  /** An override belongs to the connection it was entered for; None means the request is refused. */
  function PlanOverride(repo: Repo, request: UpdateRequest, backends: Backends): Option<Plan> {
    var target, moves := TargetAfter(repo, request.target), Moves(repo, request.target);
    match request.credentials
    case Untouched => Some(if moves then DropOverride else KeepOverride)
    case Cleared => Some(DropOverride)
    case Given(values) =>
      if target !in backends then None
      else
        var fields := BuildOverride(backends[target], values);
        if fields.None? then None
        else if repo.credential.Some? && !moves then Some(MergeOverride(fields.value))
        else if fields.value != map[] then Some(NewOverride(fields.value))
        else if moves then Some(DropOverride)
        else Some(KeepOverride)
  }

  function StoredFields(s: State, id: SecretId): Fields {
    if id in s.secrets && s.secrets[id].Override? then s.secrets[id].fields else map[]
  }

  /** The secret writes of a plan, which come before the transaction. */
  function Prepared(s: State, repo: Repo, plan: Plan, next: SecretId): State {
    if plan.MergeOverride? && repo.credential.Some? then
      Put(s, repo.credential.value, Override(StoredFields(s, repo.credential.value) + plan.fields))
    else if plan.NewOverride? then Put(s, next, Override(plan.fields))
    else s
  }

  function CredentialAfter(repo: Repo, plan: Plan, next: SecretId): Option<SecretId> {
    if plan.DropOverride? then None else if plan.NewOverride? then Some(next) else repo.credential
  }

  /** The committed transaction, and the removal of the secret it left behind. */
  function Settled(s: State, job: JobId, repo: Repo, target: Option<TargetId>, plan: Plan, next: SecretId): State {
    var linked := Link(s, job, Repo(target, repo.password, CredentialAfter(repo, plan, next)));
    if (plan.DropOverride? || plan.NewOverride?) && repo.credential.Some? then Drop(linked, repo.credential.value) else linked
  }

  function PasswordSet(s: State, repo: Repo, password: Option<string>): State {
    if password.Some? then Put(s, repo.password, Password(password.value)) else s
  }

  /** An update refused for its credentials has already changed the password. */
  function Updated(s: State, job: JobId, request: UpdateRequest, backends: Backends, next: SecretId, committed: bool): State {
    if job !in s.jobs then s
    else if request.target.ToTarget? && request.target.target !in backends then s
    else
      var repo := s.jobs[job];
      var s1, plan := PasswordSet(s, repo, request.password), PlanOverride(repo, request, backends);
      if plan.None? then s1
      else
        var s2 := Prepared(s1, repo, plan.value, next);
        if committed then Settled(s2, job, repo, TargetAfter(repo, request.target), plan.value, next) else s2
  }

  /** The override a create asks for; None means the request is refused. */
  function CreateFields(request: CreateRequest, backends: Backends): Option<Fields> {
    if request.target !in backends then None else BuildOverride(backends[request.target], request.credentials)
  }

  function Created(s: State, job: JobId, request: CreateRequest, backends: Backends, next: SecretId, next': SecretId,
                   committed: bool): State {
    var fields := CreateFields(request, backends);
    if fields.None? then s
    else
      var s1 := Put(s, next, Password(request.password));
      var s2 := if fields.value != map[] then Put(s1, next', Override(fields.value)) else s1;
      if committed then Link(s2, job, Repo(request.target, next, if fields.value != map[] then Some(next') else None)) else s2
  }

  function Removed(s: State, job: JobId): State {
    if job !in s.jobs then s
    else
      var repo := s.jobs[job];
      var s1 := Drop(Unlink(s, job), repo.password);
      if repo.credential.Some? then Drop(s1, repo.credential.value) else s1
  }

  // --- The balance of each call -----------------------------------------------------------------

  /** A call, with the connections its user may use at that time. */
  datatype Call =
    | Create(job: JobId, request: CreateRequest, backends: Backends, next: SecretId, next': SecretId, committed: bool)
    | Update(job: JobId, change: UpdateRequest, backends: Backends, next: SecretId, committed: bool)
    | Remove(job: JobId)

  /** Identifiers drawn by a call are new. */
  predicate Fresh(s: State, call: Call) {
    match call
    case Create(job, _, _, next, next', _) => job !in s.jobs && next !in s.secrets && next' !in s.secrets && next != next'
    case Update(_, _, _, next, _) => next !in s.secrets
    case Remove(_) => true
  }

  function Handled(s: State, call: Call): State {
    match call
    case Create(job, request, backends, next, next', committed) => Created(s, job, request, backends, next, next', committed)
    case Update(job, change, backends, next, committed) => Updated(s, job, change, backends, next, committed)
    case Remove(job) => Removed(s, job)
  }

  /**
   The secrets a call leaks: those it created before its transaction failed. A
   request refused for its content leaks nothing, and neither does a failed
   update that creates no override.
   */
  function Leaked(s: State, call: Call): set<SecretId> {
    match call
    case Create(_, request, backends, next, next', committed) =>
      var fields := CreateFields(request, backends);
      if committed || fields.None? then {} else if fields.value == map[] then {next} else {next, next'}
    case Update(job, change, backends, next, committed) =>
      if committed || job !in s.jobs || (change.target.ToTarget? && change.target.target !in backends) then {}
      else
        var plan := PlanOverride(s.jobs[job], change, backends);
        if plan.Some? && plan.value.NewOverride? then {next} else {}
    case Remove(_) => {}
  }

  lemma CreatedBalance(s: State, job: JobId, request: CreateRequest, backends: Backends, next: SecretId, next': SecretId,
                       committed: bool)
    requires Linked(s) && Fresh(s, Create(job, request, backends, next, next', committed))
    ensures var s' := Created(s, job, request, backends, next, next', committed);
            && Linked(s') && Foreigners(s') == Foreigners(s)
            && Orphans(s') == Orphans(s) + Leaked(s, Create(job, request, backends, next, next', committed))
  {
    var fields := CreateFields(request, backends);
    if fields.Some? {
      var s1 := Put(s, next, Password(request.password));
      PutNew(s, next, Password(request.password));
      if fields.value != map[] {
        PutNew(s1, next', Override(fields.value));
        var s2, repo := Put(s1, next', Override(fields.value)), Repo(request.target, next, Some(next'));
        LinkJob(s2, job, repo);
        assert SecretsOf(repo) == {next, next'};
      } else {
        var repo := Repo(request.target, next, None);
        LinkJob(s1, job, repo);
        assert SecretsOf(repo) == {next};
      }
    }
  }

  lemma RemovedBalance(s: State, job: JobId)
    requires Linked(s)
    ensures Linked(Removed(s, job)) && Foreigners(Removed(s, job)) == Foreigners(s)
    ensures Orphans(Removed(s, job)) == Orphans(s)
  {
    if job in s.jobs {
      var repo, s1 := s.jobs[job], Unlink(s, job);
      UnlinkJob(s, job);
      assert RepoOk(repo, s.secrets);
      HeldIsStored(s, job);
      assert Held(s, job) == SecretsOf(repo) && Held(s, job) !! Orphans(s);
      DropOrphan(s1, repo.password);
      if repo.credential.Some? {
        assert repo.credential.value != repo.password;
        DropOrphan(Drop(s1, repo.password), repo.credential.value);
      }
    }
  }

  lemma PasswordBalance(s: State, job: JobId, password: Option<string>)
    requires Linked(s) && job in s.jobs
    ensures var s' := PasswordSet(s, s.jobs[job], password);
            && Linked(s') && Foreigners(s') == Foreigners(s) && Orphans(s') == Orphans(s)
            && s'.jobs == s.jobs && s'.secrets.Keys == s.secrets.Keys
  {
  }

  lemma PreparedBalance(s: State, job: JobId, plan: Plan, next: SecretId)
    requires Linked(s) && job in s.jobs && next !in s.secrets
    ensures var s' := Prepared(s, s.jobs[job], plan, next);
            && Linked(s') && Foreigners(s') == Foreigners(s) && s'.jobs == s.jobs
            && Orphans(s') == Orphans(s) + (if plan.NewOverride? then {next} else {})
            && (plan.NewOverride? ==> next in s'.secrets && s'.secrets[next].Override?)
  {
    var repo := s.jobs[job];
    assert RepoOk(repo, s.secrets);
    if plan.MergeOverride? && repo.credential.Some? {
      PutOver(s, repo.credential.value, Override(StoredFields(s, repo.credential.value) + plan.fields));
    } else if plan.NewOverride? {
      PutNew(s, next, Override(plan.fields));
    }
  }

  lemma SettledBalance(s: State, job: JobId, target: Option<TargetId>, plan: Plan, next: SecretId)
    requires Linked(s) && job in s.jobs
    requires plan.NewOverride? ==> next in Orphans(s) && s.secrets[next].Override?
    ensures var s' := Settled(s, job, s.jobs[job], target, plan, next);
            && Linked(s') && Foreigners(s') == Foreigners(s)
            && Orphans(s') == Orphans(s) - (if plan.NewOverride? then {next} else {})
  {
    var repo := s.jobs[job];
    assert RepoOk(repo, s.secrets);
    HeldIsStored(s, job);
    var repo' := Repo(target, repo.password, CredentialAfter(repo, plan, next));
    LinkJob(s, job, repo');
    assert Held(s, job) !! Orphans(s);
    if (plan.DropOverride? || plan.NewOverride?) && repo.credential.Some? {
      LinkLeaves(s, job, repo', plan, next);
      DropOrphan(Link(s, job, repo'), repo.credential.value);
    }
  }

  lemma LinkLeaves(s: State, job: JobId, repo': Repo, plan: Plan, next: SecretId)
    requires Linked(s) && job in s.jobs && s.jobs[job].credential.Some? && repo'.password == s.jobs[job].password
    requires plan.DropOverride? || (plan.NewOverride? && next in Orphans(s))
    requires repo'.credential == CredentialAfter(s.jobs[job], plan, next)
    ensures var kept := if plan.NewOverride? then {next} else {};
            && s.jobs[job].credential.value !in Orphans(s)
            && Orphans(s) + Held(s, job) - SecretsOf(repo') == Orphans(s) + {s.jobs[job].credential.value} - kept
  {
  }

  lemma UpdatedBalance(s: State, job: JobId, request: UpdateRequest, backends: Backends, next: SecretId, committed: bool)
    requires Linked(s) && next !in s.secrets
    ensures var s' := Updated(s, job, request, backends, next, committed);
            && Linked(s') && Foreigners(s') == Foreigners(s)
            && Orphans(s') == Orphans(s) + Leaked(s, Update(job, request, backends, next, committed))
  {
    if job in s.jobs && !(request.target.ToTarget? && request.target.target !in backends) {
      var repo := s.jobs[job];
      var s1, plan := PasswordSet(s, repo, request.password), PlanOverride(repo, request, backends);
      PasswordBalance(s, job, request.password);
      if plan.Some? {
        PreparedBalance(s1, job, plan.value, next);
        if committed {
          SettledBalance(Prepared(s1, repo, plan.value, next), job, TargetAfter(repo, request.target), plan.value, next);
        }
      }
    }
  }

  lemma HandledBalance(s: State, call: Call)
    requires Linked(s) && Fresh(s, call)
    ensures Linked(Handled(s, call)) && Foreigners(Handled(s, call)) == Foreigners(s)
    ensures Orphans(Handled(s, call)) == Orphans(s) + Leaked(s, call)
  {
    match call
    case Create(job, request, backends, next, next', committed) => CreatedBalance(s, job, request, backends, next, next', committed);
    case Update(job, change, backends, next, committed) => UpdatedBalance(s, job, change, backends, next, committed);
    case Remove(job) => RemovedBalance(s, job);
  }

  // --- Any sequence of calls ---------------------------------------------------------------------

  predicate AllFresh(s: State, calls: seq<Call>)
    decreases |calls|
  {
    calls == [] || (Fresh(s, calls[0]) && AllFresh(Handled(s, calls[0]), calls[1..]))
  }

  function HandledAll(s: State, calls: seq<Call>): State
    decreases |calls|
  {
    if calls == [] then s else HandledAll(Handled(s, calls[0]), calls[1..])
  }

  function LeakedAll(s: State, calls: seq<Call>): set<SecretId>
    decreases |calls|
  {
    if calls == [] then {}
    else Leaked(s, calls[0]) + LeakedAll(Handled(s, calls[0]), calls[1..])
  }

  /**
   The account over any sequence of create, update and remove calls, refused and
   failed ones included: there is never a dangling reference or a shared secret,
   the secrets of connections are untouched, and the secrets that belong to no
   repository are exactly those a failed transaction left behind. Nothing ever
   takes one of those up again.
   */
  lemma {:induction false} SecretAccount(s: State, calls: seq<Call>)
    requires Linked(s) && AllFresh(s, calls)
    ensures Linked(HandledAll(s, calls))
    ensures Foreigners(HandledAll(s, calls)) == Foreigners(s)
    ensures Orphans(HandledAll(s, calls)) == Orphans(s) + LeakedAll(s, calls)
    decreases |calls|
  {
    if calls != [] {
      HandledBalance(s, calls[0]);
      SecretAccount(Handled(s, calls[0]), calls[1..]);
    }
  }

  /** Secret conservation: it holds of a sequence of calls exactly if none of their transactions stranded a new secret. */
  lemma {:induction false} SecretsConservedIff(s: State, calls: seq<Call>)
    requires Conserved(s) && AllFresh(s, calls)
    ensures Conserved(HandledAll(s, calls)) <==> LeakedAll(s, calls) == {}
  {
    SecretAccount(s, calls);
  }

  /** It does happen: one create from nothing whose transaction fails leaves its password secret behind for good. */
  lemma FailedCreateStrands(job: JobId, request: CreateRequest, backends: Backends, next: SecretId, next': SecretId)
    requires request.target in backends && request.credentials == map[] && next != next'
    ensures var s, call := State(map[], map[]), Create(job, request, backends, next, next', false);
            && Conserved(s) && Fresh(s, call)
            && var s' := Handled(s, call); Linked(s') && Orphans(s') == {next} && !Conserved(s')
  {
    var s, call := State(map[], map[]), Create(job, request, backends, next, next', false);
    HandledBalance(s, call);
    assert BuildOverride(backends[request.target], map[]) == Some(map[]);
    assert next in Orphans(Handled(s, call));
  }

  /** In particular after calls whose transactions all commit. */
  lemma {:induction false} SecretsConserved(s: State, calls: seq<Call>)
    requires Conserved(s) && AllFresh(s, calls)
    requires forall i :: 0 <= i < |calls| ==> calls[i].Remove? || calls[i].committed
    ensures Conserved(HandledAll(s, calls))
    decreases |calls|
  {
    if calls != [] {
      HandledBalance(s, calls[0]);
      assert calls[0].Remove? || calls[0].committed;
      SecretsConserved(Handled(s, calls[0]), calls[1..]);
    }
  }

  // --- What becomes of an override ------------------------------------------------------------------

  /** The override a job has, if it has one. */
  function OverrideOf(s: State, job: JobId): Option<Fields>
    requires job in s.jobs
  {
    var c := s.jobs[job].credential;
    if c.Some? then Some(StoredFields(s, c.value)) else None
  }

  /**
   An accepted update on the same connection keeps the stored fields it does not
   name, or names with an empty value, and replaces the others.
   */
  lemma MergeKeepsUnnamedFields(s: State, job: JobId, request: UpdateRequest, backends: Backends, next: SecretId, committed: bool)
    requires Linked(s) && job in s.jobs && s.jobs[job].credential.Some?
    requires !Moves(s.jobs[job], request.target) && (request.target.ToTarget? ==> request.target.target in backends)
    requires request.credentials.Given? && PlanOverride(s.jobs[job], request, backends).Some?
    ensures var s', given := Updated(s, job, request, backends, next, committed), request.credentials.values;
            && job in s'.jobs && OverrideOf(s', job).Some?
            && var before, after := OverrideOf(s, job).value, OverrideOf(s', job).value;
               && (forall f :: f in after <==> f in before || (f in given && given[f] != ""))
               && (forall f :: f in after ==> after[f] == if f in given && given[f] != "" then given[f] else before[f])
  {
  }

  /** An override never survives a move to another connection: what the job has afterwards, if anything, is new. */
  lemma MoveDropsOverride(s: State, job: JobId, request: UpdateRequest, backends: Backends, next: SecretId)
    requires Linked(s) && job in s.jobs && next !in s.secrets
    requires request.target.ToTarget? && request.target.target != s.jobs[job].target && request.target.target in backends && PlanOverride(s.jobs[job], request, backends).Some?
    ensures var s' := Updated(s, job, request, backends, next, true);
            && job in s'.jobs && s'.jobs[job].target == request.target.target
            && (s.jobs[job].credential.Some? ==> s.jobs[job].credential.value !in s'.secrets)
            && (s'.jobs[job].credential.Some? ==>
                  && s'.jobs[job].credential.value == next && request.credentials.Given?
                  && OverrideOf(s', job) == BuildOverride(backends[request.target.target], request.credentials.values))
  {
  }

  // --- What each call means for its job ----------------------------------------------------------------

  /** What the override of a request is made of: refused for a field that may not be overridden, else its non-empty fields. */
  lemma OverrideMeans(allowed: set<string>, values: Fields)
    ensures var r := BuildOverride(allowed, values);
            && (r.None? <==> exists name :: name in values && name !in allowed)
            && (r.Some? ==>
                  && (forall name :: name in r.value <==> name in values && values[name] != "")
                  && (forall name :: name in r.value ==> r.value[name] == values[name]))
  {
  }

  /** The fields of a request that are not empty. */
  function NonEmpty(values: Fields): Fields {
    map name | name in values && values[name] != "" :: values[name]
  }

  /** Jobs and secrets other than those of one job are as they were. */
  ghost predicate OthersUntouched(s: State, s': State, job: JobId, drawn: set<SecretId>) {
    && s'.jobs - {job} == s.jobs - {job}
    && forall id :: id !in Held(s, job) && id !in drawn ==>
         (id in s.secrets <==> id in s'.secrets) && (id in s.secrets ==> s'.secrets[id] == s.secrets[id])
  }

  /** An accepted create stores the password, the connection and the fields asked for, under a job of its own. */
  lemma CreateMeans(s: State, job: JobId, request: CreateRequest, backends: Backends, next: SecretId, next': SecretId)
    requires Linked(s) && job !in s.jobs && next !in s.secrets && next' !in s.secrets && next != next'
    requires request.target in backends && forall name :: name in request.credentials ==> name in backends[request.target]
    ensures var s' := Created(s, job, request, backends, next, next', true);
            && job in s'.jobs && s'.jobs[job].target == request.target
            && s'.jobs[job].password in s'.secrets && s'.secrets[s'.jobs[job].password] == Password(request.password)
            && OverrideOf(s', job) == (if NonEmpty(request.credentials) == map[] then None else Some(NonEmpty(request.credentials)))
            && OthersUntouched(s, s', job, {next, next'})
  {
    assert BuildOverride(backends[request.target], request.credentials) == Some(NonEmpty(request.credentials));
  }

  /** A create that names a connection its user may not use, or a field that may not be overridden, changes nothing. */
  lemma CreateRefused(s: State, job: JobId, request: CreateRequest, backends: Backends, next: SecretId, next': SecretId, committed: bool)
    requires request.target !in backends || exists name :: name in request.credentials && name !in backends[request.target]
    ensures Created(s, job, request, backends, next, next', committed) == s
  {
  }

  /** The request is not refused. */
  predicate Accepted(repo: Repo, request: UpdateRequest, backends: Backends) {
    && (request.target.ToTarget? ==> request.target.target in backends)
    && (request.credentials.Given? ==>
          var target := TargetAfter(repo, request.target);
          target in backends && forall name :: name in request.credentials.values ==> name in backends[target])
  }

  /** Which override a job has after an accepted update. */
  function OverrideAfter(before: Option<Fields>, moves: bool, change: CredentialChange): Option<Fields> {
    match change
    case Untouched => if moves then None else before
    case Cleared => None
    case Given(values) =>
      if before.Some? && !moves then Some(before.value + NonEmpty(values))
      else if NonEmpty(values) != map[] then Some(NonEmpty(values))
      else None
  }

  /**
   An accepted update: the job stands on the connection asked for, else on its
   old one; its password is the one given, else its old one; and its override is
   dropped when it is cleared or the connection changes, merged with what is
   given on the same connection, and left alone otherwise. A dropped override is
   not stored any longer. Nothing else changes.
   */
  lemma UpdateMeans(s: State, job: JobId, request: UpdateRequest, backends: Backends, next: SecretId)
    requires Linked(s) && job in s.jobs && next !in s.secrets && Accepted(s.jobs[job], request, backends)
    ensures var s', repo := Updated(s, job, request, backends, next, true), s.jobs[job];
            && job in s'.jobs && s'.jobs[job].target == (if request.target.ToTarget? then request.target.target else repo.target)
            && s'.jobs[job].password == repo.password && repo.password in s'.secrets
            && s'.secrets[repo.password] == (if request.password.Some? then Password(request.password.value) else s.secrets[repo.password])
            && OverrideOf(s', job) == OverrideAfter(OverrideOf(s, job), s'.jobs[job].target != repo.target, request.credentials)
            && (repo.credential.Some? && s'.jobs[job].credential != repo.credential ==> repo.credential.value !in s'.secrets)
            && OthersUntouched(s, s', job, {next})
  {
    var repo := s.jobs[job];
    assert RepoOk(repo, s.secrets);
    if request.credentials.Given? {
      var target := TargetAfter(repo, request.target);
      assert BuildOverride(backends[target], request.credentials.values) == Some(NonEmpty(request.credentials.values));
    }
    UpdateMeansBy(s, job, request, backends, next, PlanOverride(repo, request, backends).value);
  }

  lemma UpdateMeansBy(s: State, job: JobId, request: UpdateRequest, backends: Backends, next: SecretId, plan: Plan)
    requires Linked(s) && job in s.jobs && next !in s.secrets && Accepted(s.jobs[job], request, backends)
    requires RepoOk(s.jobs[job], s.secrets) && PlanOverride(s.jobs[job], request, backends) == Some(plan)
    ensures var s', repo := Updated(s, job, request, backends, next, true), s.jobs[job];
            && s'.jobs == s.jobs[job := Repo(TargetAfter(repo, request.target), repo.password, CredentialAfter(repo, plan, next))]
            && repo.password in s'.secrets
            && s'.secrets[repo.password] == (if request.password.Some? then Password(request.password.value) else s.secrets[repo.password])
            && (plan.MergeOverride? && repo.credential.Some? ==>
                  s'.secrets[repo.credential.value] == Override(StoredFields(s, repo.credential.value) + plan.fields))
            && (plan.KeepOverride? && repo.credential.Some? ==>
                  repo.credential.value in s'.secrets && s'.secrets[repo.credential.value] == s.secrets[repo.credential.value])
            && (plan.NewOverride? ==> next in s'.secrets && s'.secrets[next] == Override(plan.fields))
            && ((plan.DropOverride? || plan.NewOverride?) && repo.credential.Some? ==> repo.credential.value !in s'.secrets)
            && OthersUntouched(s, s', job, {next})
  {
  }

  /** A cleared override is gone, whatever else the request says. */
  lemma ClearDropsOverride(s: State, job: JobId, request: UpdateRequest, backends: Backends, next: SecretId)
    requires Linked(s) && job in s.jobs && next !in s.secrets && Accepted(s.jobs[job], request, backends)
    requires request.credentials.Cleared?
    ensures var s' := Updated(s, job, request, backends, next, true);
            && job in s'.jobs && s'.jobs[job].credential.None?
            && (s.jobs[job].credential.Some? ==> s.jobs[job].credential.value !in s'.secrets)
  {
    UpdateMeans(s, job, request, backends, next);
  }

  /** A refused or failed update leaves all jobs as they are. */
  lemma UpdateRefused(s: State, job: JobId, request: UpdateRequest, backends: Backends, next: SecretId, committed: bool)
    requires job !in s.jobs || !Accepted(s.jobs[job], request, backends) || !committed
    ensures Updated(s, job, request, backends, next, committed).jobs == s.jobs
  {
  }

  /** A removed job is gone with both its secrets, and nothing else is. */
  lemma RemoveMeans(s: State, job: JobId)
    requires Linked(s)
    ensures var s' := Removed(s, job);
            && s'.jobs == s.jobs - {job}
            && (forall id :: id in s'.secrets <==> id in s.secrets && id !in Held(s, job))
            && (forall id :: id in s'.secrets ==> s'.secrets[id] == s.secrets[id])
  {
  }

  // --- The service ------------------------------------------------------------------------------------

  /** Validates an override field by field, in any order. */
  method BuildCredentialOverride(allowed: set<string>, values: Fields) returns (r: Option<Fields>)
    ensures r == BuildOverride(allowed, values)
  {
    var out: Fields, rest := map[], values.Keys;
    while rest != {}
      invariant rest <= values.Keys
      invariant forall name :: name in values && name !in rest ==> name in allowed
      invariant forall name :: name in out <==> name in values && name !in rest && values[name] != ""
      invariant forall name :: name in out ==> out[name] == values[name]
      decreases |rest|
    {
      var name :| name in rest;
      if name !in allowed {
        return None;
      }
      rest := rest - {name};
      if values[name] != "" {
        out := out[name := values[name]];
      }
    }
    assert out == map name | name in values && values[name] != "" :: values[name];
    return Some(out);
  }

  class JobsService {
    var secrets: map<SecretId, Secret>
    var jobs: map<JobId, Repo>

    function Contents(): State
      reads this
    {
      State(secrets, jobs)
    }

    method Create(job: JobId, request: CreateRequest, backends: Backends, next: SecretId, next': SecretId, committed: bool)
      modifies this
      ensures Contents() == Created(old(Contents()), job, request, backends, next, next', committed)
    {
      if request.target !in backends {
        return;
      }
      var overrides := BuildCredentialOverride(backends[request.target], request.credentials);
      if overrides.None? {
        return;
      }
      secrets := secrets[next := Password(request.password)];
      var credential := None;
      if overrides.value != map[] {
        secrets := secrets[next' := Override(overrides.value)];
        credential := Some(next');
      }
      if committed {
        jobs := jobs[job := Repo(request.target, next, credential)];
      }
    }

    method Update(job: JobId, request: UpdateRequest, backends: Backends, next: SecretId, committed: bool)
      requires Linked(Contents())
      modifies this
      ensures Contents() == Updated(old(Contents()), job, request, backends, next, committed)
    {
      if job !in jobs || (request.target.ToTarget? && request.target.target !in backends) {
        return;
      }
      var repo := jobs[job];
      assert RepoOk(repo, secrets);
      if request.password.Some? {
        secrets := secrets[repo.password := Password(request.password.value)];
      }
      var effectiveTarget := TargetAfter(repo, request.target);
      var movesConnection := Moves(repo, request.target);
      var credential, orphaned := repo.credential, None;
      if movesConnection && request.credentials.Untouched? {
        if repo.credential.Some? {
          credential, orphaned := None, repo.credential;
        }
      } else if request.credentials.Cleared? {
        credential, orphaned := None, repo.credential;
      } else if request.credentials.Given? {
        if effectiveTarget !in backends {
          return;
        }
        var overrides := BuildCredentialOverride(backends[effectiveTarget], request.credentials.values);
        if overrides.None? {
          return;
        }
        if repo.credential.Some? && !movesConnection {
          var current := secrets[repo.credential.value].fields;
          secrets := secrets[repo.credential.value := Override(current + overrides.value)];
        } else if overrides.value != map[] {
          secrets := secrets[next := Override(overrides.value)];
          credential := Some(next);
          if movesConnection {
            orphaned := repo.credential;
          }
        } else if movesConnection && repo.credential.Some? {
          credential, orphaned := None, repo.credential;
        }
      }
      if !committed {
        return;
      }
      jobs := jobs[job := Repo(effectiveTarget, repo.password, credential)];
      if orphaned.Some? {
        secrets := secrets - {orphaned.value};
      }
    }

    method Remove(job: JobId)
      modifies this
      ensures Contents() == Removed(old(Contents()), job)
    {
      if job !in jobs {
        return;
      }
      var repo := jobs[job];
      jobs := jobs - {job};
      secrets := secrets - {repo.password};
      if repo.credential.Some? {
        secrets := secrets - {repo.credential.value};
      }
    }
  }
}
