/**
 * The provisioning snapshot: resolved inputs captured from a Template and a
 * Project, then verified against them, by a reconciler whose sources may be
 * edited, deleted or recreated at any time.
 *
 * An empty UID is 0.  Quantities are numbers: CPUs, and sizes in Gi.
 */
module Provisioning {
  import opened Basics

  datatype Template = Template(
    name: string, uid: nat, generation: nat,
    backend: string, image: string, size: string, disk: Option<int>, runtimeClass: string)

  datatype Project = Project(name: string, uid: nat, generation: nat, repositories: seq<string>)

  datatype Spec = Spec(templateRef: string, projectRef: string, projectUid: nat, backend: string)

  datatype TemplateSource = TemplateSource(name: string, uid: nat, generation: nat)

  datatype ProjectSource = ProjectSource(name: string, uid: nat, generation: nat, repository: string)

  datatype Resources = Resources(cpu: int, memory: int)

  datatype Inputs = Inputs(
    template: TemplateSource,
    backend: string, image: string, size: string, resources: Resources, runtimeClass: string, disk: int,
    legacyPvc: nat)

  datatype Snapshot = Snapshot(
    inputs: Inputs, project: Option<ProjectSource>, templateVerified: bool, projectVerified: bool)

  const DEFAULT_DISK: int := 40
  const DEFAULT_SIZE: string := "medium"
  const SIZES: map<string, Resources> :=
    map["tiny" := Resources(1, 2), "small" := Resources(2, 4), "medium" := Resources(8, 16), "large" := Resources(16, 32)]
  const BACKENDS: set<string> := {"pod", "kubevirt", "external-runner"}

  predicate Blank(s: string) {
    forall i :: 0 <= i < |s| ==> s[i] in {' ', '\t', '\n', '\r'}
  }

  // ---------------------------------------------------------------------
  // Resolution and validation
  // ---------------------------------------------------------------------

  function EffectiveBackend(spec: Spec, t: Template): string {
    if spec.backend != "" then spec.backend else if t.backend != "" then t.backend else "pod"
  }

  function Resolve(spec: Spec, t: Template, p: Option<Project>, legacyPvc: nat): Snapshot {
    var size := if t.size in SIZES then t.size else DEFAULT_SIZE;
    Snapshot(
      Inputs(
        TemplateSource(t.name, t.uid, t.generation), EffectiveBackend(spec, t), t.image, size, SIZES[size], t.runtimeClass,
        if t.disk.Some? then t.disk.value else DEFAULT_DISK, legacyPvc),
      if p.Some? && |p.value.repositories| == 1
      then Some(ProjectSource(p.value.name, p.value.uid, p.value.generation, p.value.repositories[0])) else None,
      false, false)
  }

  /** The snapshot is whole, save that a Project may still be missing. */
  predicate ValidTemplatePart(spec: Spec, s: Snapshot) {
    var i := s.inputs;
    && !Blank(i.template.name) && i.template.name == spec.templateRef && i.template.uid != 0 && i.template.generation >= 1
    && i.backend in BACKENDS && (spec.backend != "" ==> i.backend == spec.backend) && !Blank(i.image)
    && i.size in SIZES && i.disk > 0 && i.resources.cpu > 0 && i.resources.memory > 0
    && (s.project.Some? ==>
          && s.project.value.name != "" && s.project.value.uid != 0 && s.project.value.generation >= 1
          && !Blank(s.project.value.repository)
          && (spec.projectUid != 0 ==> s.project.value.name == spec.projectRef && s.project.value.uid == spec.projectUid))
    && (s.project.None? ==> !s.projectVerified)
  }

  /** The snapshot may be provisioned from. */
  predicate Valid(spec: Spec, s: Snapshot) {
    && ValidTemplatePart(spec, s)
    && s.templateVerified
    && (if s.project.None? then spec.projectRef == ""
        else
          && spec.projectRef != "" && s.project.value.name == spec.projectRef && s.project.value.uid != 0
          && s.project.value.generation >= 1 && !Blank(s.project.value.repository)
          && s.projectVerified)
  }

  /**
   * What resolution takes from where: the size of the Template if it is one of
   * the four, medium otherwise, and the resources of just that size; the
   * backend of the Environment, else of the Template, else a Pod; the disk of
   * the Template or 40 Gi; a Project only with exactly one repository.
   */
  lemma ResolvedFrom(spec: Spec, t: Template, p: Option<Project>, legacyPvc: nat)
    ensures var s := Resolve(spec, t, p, legacyPvc);
      var i := s.inputs;
      && i.template == TemplateSource(t.name, t.uid, t.generation) && i.image == t.image && i.runtimeClass == t.runtimeClass
      && i.legacyPvc == legacyPvc
      && i.size == (if t.size == "tiny" || t.size == "small" || t.size == "medium" || t.size == "large" then t.size else "medium")
      && (i.size == "tiny" ==> i.resources == Resources(1, 2)) && (i.size == "small" ==> i.resources == Resources(2, 4))
      && (i.size == "medium" ==> i.resources == Resources(8, 16)) && (i.size == "large" ==> i.resources == Resources(16, 32))
      && (spec.backend != "" ==> i.backend == spec.backend)
      && (spec.backend == "" && t.backend != "" ==> i.backend == t.backend)
      && (spec.backend == "" && t.backend == "" ==> i.backend == "pod")
      && (t.disk.Some? ==> i.disk == t.disk.value) && (t.disk.None? ==> i.disk == 40)
      && (s.project.Some? <==> p.Some? && |p.value.repositories| == 1)
      && (s.project.Some? ==>
            s.project.value == ProjectSource(p.value.name, p.value.uid, p.value.generation, p.value.repositories[0]))
      && !s.templateVerified && !s.projectVerified
  {
  }

  /** Resolution fills every gap: what can still be missing is what the sources themselves must say. */
  lemma ResolvedIsValidIff(spec: Spec, t: Template, p: Option<Project>, legacyPvc: nat)
    ensures ValidTemplatePart(spec, Resolve(spec, t, p, legacyPvc)) <==>
      && !Blank(t.name) && t.name == spec.templateRef && t.uid != 0 && t.generation >= 1
      && !Blank(t.image) && (t.disk.Some? ==> t.disk.value > 0)
      && (spec.backend in BACKENDS || (spec.backend == "" && (t.backend in BACKENDS || t.backend == "")))
      && (p.Some? && |p.value.repositories| == 1 ==>
            && p.value.name != "" && p.value.uid != 0 && p.value.generation >= 1 && !Blank(p.value.repositories[0])
            && (spec.projectUid != 0 ==> p.value.name == spec.projectRef && p.value.uid == spec.projectUid))
  {
  }

  predicate EqualIgnoringVerification(a: Snapshot, b: Snapshot) {
    a.inputs == b.inputs && a.project == b.project
  }

  // ---------------------------------------------------------------------
  // One pass
  // ---------------------------------------------------------------------

  /** What a reconcile read before it decided. */
  datatype Reading = Reading(version: nat, spec: Spec, snapshot: Option<Snapshot>, template: Template, project: Option<Project>)

  /** The earlier gates: the Project is the one the spec names, and it has one repository. */
  predicate Resolved(r: Reading) {
    && (r.project.None? <==> r.spec.projectRef == "")
    && (r.project.Some? ==>
          && r.project.value.name == r.spec.projectRef && |r.project.value.repositories| == 1
          && (r.spec.projectUid != 0 ==> r.project.value.uid == r.spec.projectUid))
  }

  // Read again before a write, one after another, the sources are still the ones that were read.

  predicate TemplateCurrent(r: Reading, template: Option<Template>) {
    template.Some? && template.value.uid == r.template.uid && template.value.generation == r.template.generation
  }

  predicate ProjectCurrent(r: Reading, project: Option<Project>) {
    if r.project.None? then r.spec.projectRef == ""
    else
      && project.Some? && project.value.uid == r.project.value.uid && project.value.generation == r.project.value.generation
      && (r.spec.projectUid != 0 ==> r.spec.projectUid == project.value.uid)
      && project.value.repositories == r.project.value.repositories && |project.value.repositories| == 1
  }

  datatype Verdict =
    | Pass
    | Refuse
    | Wait
    | Write(next: Snapshot)

  function Verify(r: Reading, current: bool, verifyProject: bool): Verdict
    requires r.snapshot.Some?
  {
    var s := r.snapshot.value;
    var p := Resolve(r.spec, r.template, r.project, s.inputs.legacyPvc);
    var projection :=
      if verifyProject
      then p.(inputs := p.inputs.(template := p.inputs.template.(generation := s.inputs.template.generation)))
      else p;
    if !current || !EqualIgnoringVerification(s, projection) then Refuse
    else Write(s.(templateVerified := true, projectVerified := s.projectVerified || verifyProject))
  }

  /** `fenced` says the children of a legacy execution do not stand in the way of a first capture. */
  function Publish(r: Reading, current: bool, fenced: bool, legacyPvc: nat): Verdict {
    if r.snapshot.Some? then
      var s := r.snapshot.value;
      if !ValidTemplatePart(r.spec, s) then Refuse
      else if !s.templateVerified then Verify(r, current, false)
      else if s.inputs.template.name != r.template.name || s.inputs.template.uid != r.template.uid then Refuse
      else if r.spec.projectRef == "" then if s.project.Some? then Refuse else Pass
      else if r.project.None? then Pass
      else if s.project.Some? then
        if s.project.value.name != r.project.value.name || s.project.value.uid != r.project.value.uid then Refuse
        else if !s.projectVerified then Verify(r, current, true)
        else Pass
      else
        var next := s.(project := Resolve(r.spec, r.template, r.project, 0).project, projectVerified := false);
        if !ValidTemplatePart(r.spec, next) then Refuse else if !current then Wait else Write(next)
    else if !fenced then Refuse
    else if !current then Wait
    else
      var candidate := Resolve(r.spec, r.template, r.project, legacyPvc);
      if !ValidTemplatePart(r.spec, candidate) then Refuse else Write(candidate)
  }

  // ---------------------------------------------------------------------
  // The gate
  // ---------------------------------------------------------------------

  /**
   * The gate lets a reconcile on to the backend exactly when the stored
   * snapshot is valid in full and names the incarnations that were read.
   */
  lemma GatePassesIff(r: Reading, current: bool, fenced: bool, legacyPvc: nat)
    requires Resolved(r)
    ensures Publish(r, current, fenced, legacyPvc) == Pass <==>
      && r.snapshot.Some? && Valid(r.spec, r.snapshot.value)
      && r.snapshot.value.inputs.template.name == r.template.name && r.snapshot.value.inputs.template.uid == r.template.uid
      && (r.project.Some? ==> r.snapshot.value.project.value.uid == r.project.value.uid)
  {
  }

  /** Without the earlier gates a named but unread Project would pass unvalidated. */
  lemma GateNeedsProject(r: Reading, current: bool, fenced: bool, legacyPvc: nat)
    requires r.snapshot.Some? && ValidTemplatePart(r.spec, r.snapshot.value) && r.snapshot.value.templateVerified
    requires r.snapshot.value.inputs.template.name == r.template.name && r.snapshot.value.inputs.template.uid == r.template.uid
    requires r.spec.projectRef != "" && r.project.None? && r.snapshot.value.project.None?
    ensures Publish(r, current, fenced, legacyPvc) == Pass && !Valid(r.spec, r.snapshot.value)
  {
  }

  /** What is provisioned from is whole: a torn, partial or unverified snapshot never passes. */
  lemma PassedIsWhole(r: Reading, current: bool, fenced: bool, legacyPvc: nat)
    requires Resolved(r) && Publish(r, current, fenced, legacyPvc) == Pass
    ensures r.snapshot.Some?
    ensures var s := r.snapshot.value;
      var i := s.inputs;
      && i.template.name == r.spec.templateRef && i.template.generation >= 1 && i.template.uid != 0
      && i.backend in {"pod", "kubevirt", "external-runner"} && (r.spec.backend != "" ==> i.backend == r.spec.backend)
      && i.size in {"tiny", "small", "medium", "large"} && i.disk > 0 && i.resources.cpu > 0 && i.resources.memory > 0
      && (exists k :: 0 <= k < |i.image| && i.image[k] != ' ') && s.templateVerified
      && (s.project.Some? <==> r.spec.projectRef != "")
      && (s.project.Some? ==>
            && s.projectVerified && s.project.value.name == r.spec.projectRef
            && s.project.value.uid != 0 && s.project.value.generation >= 1
            && (r.spec.projectUid != 0 ==> s.project.value.uid == r.spec.projectUid)
            && exists k :: 0 <= k < |s.project.value.repository| && s.project.value.repository[k] != ' ')
  {
  }

  /** A first capture, or a Project to be bound to a verified snapshot without one. */
  predicate Captures(r: Reading) {
    || r.snapshot.None?
    || (&& r.snapshot.value.templateVerified && r.snapshot.value.project.None? && r.project.Some?
        && r.snapshot.value.inputs.template.name == r.template.name && r.snapshot.value.inputs.template.uid == r.template.uid)
  }

  /**
   * A pass waits for another only when its sources changed before anything of
   * them was published.  A published part that no longer matches is refused.
   */
  lemma WaitsIff(r: Reading, current: bool, fenced: bool, legacyPvc: nat)
    requires Resolved(r)
    ensures Publish(r, current, fenced, legacyPvc) == Wait <==>
      && !current && Captures(r) && (r.snapshot.None? ==> fenced)
      && (r.snapshot.Some? ==>
            && ValidTemplatePart(r.spec, r.snapshot.value)
            && r.project.value.uid != 0 && r.project.value.generation >= 1 && !Blank(r.project.value.repositories[0]))
  {
  }

  /**
   * A pass writes only on sources that were read again unchanged: the
   * resolution of what it read, its Project added to the snapshot, or a
   * verification of a snapshot that equals the resolution, the generation of
   * a Template aside once that was verified.
   */
  lemma WritesMean(r: Reading, current: bool, fenced: bool, legacyPvc: nat)
    requires Resolved(r) && Publish(r, current, fenced, legacyPvc).Write?
    ensures current && (r.snapshot.None? ==> fenced)
    ensures var next := Publish(r, current, fenced, legacyPvc).next;
      var found := Resolve(r.spec, r.template, r.project, legacyPvc);
      if r.snapshot.None? then next == found
      else
        var s := r.snapshot.value;
        && next.templateVerified
        && (if s.templateVerified && s.project.None? then next == s.(project := found.project) && next.project.Some?
            else
              && next == s.(templateVerified := true, projectVerified := s.projectVerified || s.templateVerified)
              && s.project == found.project
              && s.inputs == found.inputs.(legacyPvc := s.inputs.legacyPvc,
                   template := TemplateSource(r.template.name, r.template.uid,
                     if s.templateVerified then s.inputs.template.generation else r.template.generation)))
  {
  }

  // ---------------------------------------------------------------------
  // Admission of writes
  // ---------------------------------------------------------------------

  /** The transition rules of the stored snapshot. */
  predicate Admissible(prior: Option<Snapshot>, next: Snapshot) {
    && (prior.None? ==> !next.templateVerified && !next.projectVerified)
    && (prior.Some? ==>
          && next.inputs == prior.value.inputs
          && (if prior.value.project.Some? then next.project == prior.value.project
              else next.project.None? || !next.projectVerified)
          && (prior.value.templateVerified ==> next.templateVerified)
          && (prior.value.projectVerified ==> next.projectVerified))
    && (next.projectVerified ==> next.project.Some?)
  }

  /** Every write the reconciler decides on is admitted: no rule ever has to refuse one. */
  lemma PublishAdmissible(r: Reading, current: bool, fenced: bool, legacyPvc: nat)
    requires Publish(r, current, fenced, legacyPvc).Write?
    ensures Admissible(r.snapshot, Publish(r, current, fenced, legacyPvc).next)
  {
  }

  // ---------------------------------------------------------------------
  // Runs
  // ---------------------------------------------------------------------

  datatype State = State(
    version: nat,
    spec: Spec,
    snapshot: Option<Snapshot>,
    template: Option<Template>,
    project: Option<Project>,
    position: Position)

  /**
   * The Environment is read first, then the Project it names, then its
   * Template; then each is read again.  `current` says that all read again so
   * far are what they were.
   */
  datatype Position =
    | AtRest
    | HasEnvironment(version: nat, spec: Spec, snapshot: Option<Snapshot>)
    | HasProject(version: nat, spec: Spec, snapshot: Option<Snapshot>, project: Option<Project>)
    | HasAll(reading: Reading)
    | EnvironmentAgain(reading: Reading, current: bool)
    | TemplateAgain(reading: Reading, current: bool)
    | ProjectAgain(reading: Reading, current: bool)

  datatype Action =
    | EditTemplate(template: Option<Template>)
    | EditProject(project: Option<Project>)
    | EditSpec(spec: Spec)
    | OtherStatusWrite
    | ReadEnvironment
    | ReadProject
    | ReadTemplate
    | ConfirmEnvironment
    | ConfirmTemplate
    | ConfirmProject
    | Stop
    | Reconcile(fenced: bool, legacyPvc: nat, applied: bool)

  predicate Enabled(s: State, a: Action) {
    match a
    case EditTemplate(_) | EditProject(_) | EditSpec(_) | OtherStatusWrite | Stop => true
    case ReadEnvironment => s.position.AtRest?
    case ReadProject => s.position.HasEnvironment? && (s.position.spec.projectRef != "" ==> s.project.Some?)
    case ReadTemplate => s.position.HasProject? && s.template.Some?
    case ConfirmEnvironment => s.position.HasAll? && Resolved(s.position.reading)
    case ConfirmTemplate => s.position.EnvironmentAgain?
    case ConfirmProject => s.position.TemplateAgain?
    case Reconcile(_, _, _) => s.position.ProjectAgain?
  }

  function Decision(s: State, a: Action): Verdict
    requires Enabled(s, a) && a.Reconcile?
  {
    Publish(s.position.reading, s.position.current, a.fenced, a.legacyPvc)
  }

  function Do(s: State, a: Action): State
    requires Enabled(s, a)
  {
    match a
    case EditTemplate(t) => s.(template := t)
    case EditProject(p) => s.(project := p)
    case EditSpec(spec) => s.(spec := spec, version := s.version + 1)
    case OtherStatusWrite => s.(version := s.version + 1)
    case ReadEnvironment => s.(position := HasEnvironment(s.version, s.spec, s.snapshot))
    case ReadProject =>
      var p := s.position;
      s.(position := HasProject(p.version, p.spec, p.snapshot, if p.spec.projectRef == "" then None else s.project))
    case ReadTemplate =>
      var p := s.position;
      s.(position := HasAll(Reading(p.version, p.spec, p.snapshot, s.template.value, p.project)))
    case ConfirmEnvironment => s.(position := EnvironmentAgain(s.position.reading, s.spec == s.position.reading.spec))
    case ConfirmTemplate =>
      var p := s.position;
      s.(position := TemplateAgain(p.reading, p.current && TemplateCurrent(p.reading, s.template)))
    case ConfirmProject =>
      var p := s.position;
      s.(position := ProjectAgain(p.reading, p.current && ProjectCurrent(p.reading, s.project)))
    case Stop => s.(position := AtRest)
    case Reconcile(_, _, applied) =>
      var d := Decision(s, a);
      if d.Write? && applied && s.version == s.position.reading.version
      then s.(snapshot := Some(d.next), version := s.version + 1, position := AtRest)
      else s.(position := AtRest)
  }

  ghost predicate IsRun(states: seq<State>, actions: seq<Action>) {
    && |states| == |actions| + 1
    && states[0].snapshot.None? && states[0].position.AtRest?
    && forall i :: 0 <= i < |actions| ==> Enabled(states[i], actions[i]) && states[i + 1] == Do(states[i], actions[i])
  }

  ghost predicate Inv(s: State) {
    match s.position
    case AtRest => true
    case HasEnvironment(version, _, snapshot) => Matches(s, version, snapshot)
    case HasProject(version, _, snapshot, _) => Matches(s, version, snapshot)
    case HasAll(r) => Matches(s, r.version, r.snapshot)
    case EnvironmentAgain(r, _) => Matches(s, r.version, r.snapshot) && Resolved(r)
    case TemplateAgain(r, _) => Matches(s, r.version, r.snapshot) && Resolved(r)
    case ProjectAgain(r, _) => Matches(s, r.version, r.snapshot) && Resolved(r)
  }

  ghost predicate Matches(s: State, version: nat, snapshot: Option<Snapshot>) {
    version <= s.version && (version == s.version ==> snapshot == s.snapshot)
  }

  lemma {:induction false} InvAlways(states: seq<State>, actions: seq<Action>, i: nat)
    requires IsRun(states, actions) && i < |states|
    ensures Inv(states[i])
  {
    if i > 0 {
      InvAlways(states, actions, i - 1);
    }
  }

  lemma SnapshotStep(s: State, a: Action)
    requires Inv(s) && Enabled(s, a)
    ensures var t := Do(s, a);
      t.snapshot == s.snapshot || (a.Reconcile? && t.snapshot.Some? && Admissible(s.snapshot, t.snapshot.value))
  {
  }

  /**
   * Whatever happens to its sources, a published snapshot keeps its resolved
   * inputs, never loses a verification, and gains a Project at most once.
   */
  lemma {:induction false} SnapshotStable(states: seq<State>, actions: seq<Action>, i: nat, j: nat)
    requires IsRun(states, actions) && i <= j < |states| && states[i].snapshot.Some?
    ensures states[j].snapshot.Some?
    ensures var s, t := states[i].snapshot.value, states[j].snapshot.value;
      && t.inputs == s.inputs
      && (s.templateVerified ==> t.templateVerified) && (s.projectVerified ==> t.projectVerified)
      && (s.project.Some? ==> t.project == s.project)
  {
    hide Do;
    if i < j {
      SnapshotStable(states, actions, i, j - 1);
      InvAlways(states, actions, j - 1);
      SnapshotStep(states[j - 1], actions[j - 1]);
    }
  }

  /** A Project appears unverified, and so does the snapshot itself. */
  lemma StartsUnverified(states: seq<State>, actions: seq<Action>, i: nat)
    requires IsRun(states, actions) && i < |actions| && states[i + 1].snapshot.Some?
    ensures states[i].snapshot.None? ==> !states[i + 1].snapshot.value.templateVerified && !states[i + 1].snapshot.value.projectVerified
    ensures states[i + 1].snapshot.value.project.Some? && (states[i].snapshot.None? || states[i].snapshot.value.project.None?) ==>
      !states[i + 1].snapshot.value.projectVerified
  {
    hide Do;
    InvAlways(states, actions, i);
    SnapshotStep(states[i], actions[i]);
  }

  /** A step found the live Template unchanged since it was read, and what was read resolves to exactly these inputs. */
  predicate ConfirmsTemplate(s: State, a: Action, inputs: Inputs) {
    && a.ConfirmTemplate? && s.position.EnvironmentAgain? && s.template.Some?
    && s.template.value.uid == inputs.template.uid && s.template.value.generation == inputs.template.generation
    && Resolve(s.position.reading.spec, s.position.reading.template, None, inputs.legacyPvc).inputs == inputs
  }

  /** A step found the live Project still being exactly this one. */
  predicate ConfirmsProject(s: State, a: Action, p: ProjectSource) {
    && a.ConfirmProject? && s.project.Some? && s.project.value.repositories == [p.repository]
    && s.project.value.uid == p.uid && s.project.value.generation == p.generation
  }

  /** What was read resolves to the Project of the snapshot. */
  predicate ReadsProject(r: Reading, p: ProjectSource) {
    && r.project.Some? && r.project.value.uid == p.uid && r.project.value.generation == p.generation
    && r.project.value.repositories == [p.repository]
  }

  lemma TemplateConfirmed(s: State, a: Action)
    requires Inv(s) && Enabled(s, a)
    requires Do(s, a).snapshot.Some? && Do(s, a).snapshot.value.templateVerified
    ensures s.snapshot.Some? && Do(s, a).snapshot.value.inputs == s.snapshot.value.inputs
    ensures !s.snapshot.value.templateVerified ==>
      && s.position.ProjectAgain? && s.position.current && s.position.reading.version == s.version
      && var inputs := s.snapshot.value.inputs;
         Resolve(s.position.reading.spec, s.position.reading.template, None, inputs.legacyPvc).inputs == inputs
  {
  }

  lemma ProjectConfirmed(s: State, a: Action)
    requires Inv(s) && Enabled(s, a)
    requires Do(s, a).snapshot.Some? && Do(s, a).snapshot.value.projectVerified && Do(s, a).snapshot.value.project.Some?
    ensures s.snapshot.Some? && Do(s, a).snapshot.value.project == s.snapshot.value.project
    ensures !s.snapshot.value.projectVerified ==>
      && s.position.ProjectAgain? && s.position.current && s.position.reading.version == s.version
      && ReadsProject(s.position.reading, s.snapshot.value.project.value)
  {
  }

  lemma PositionStep(s: State, a: Action)
    requires Enabled(s, a)
    ensures s.version <= Do(s, a).version
    ensures Do(s, a).position.ProjectAgain? ==>
      || Do(s, a).position == s.position
      || (&& a.ConfirmProject? && s.position.TemplateAgain? && s.position.reading == Do(s, a).position.reading
          && (Do(s, a).position.current ==> s.position.current && ProjectCurrent(s.position.reading, s.project)))
    ensures Do(s, a).position.TemplateAgain? ==>
      || Do(s, a).position == s.position
      || (&& a.ConfirmTemplate? && s.position.EnvironmentAgain? && s.position.reading == Do(s, a).position.reading
          && (Do(s, a).position.current ==> TemplateCurrent(s.position.reading, s.template)))
  {
  }

  /** A pass that found its sources current read the Project again at some step `k`, still the one it had read. */
  lemma {:induction false} ProjectReadAgain(states: seq<State>, actions: seq<Action>, i: nat) returns (k: nat)
    requires IsRun(states, actions) && i < |states| && states[i].position.ProjectAgain? && states[i].position.current
    ensures k < i && actions[k].ConfirmProject? && ProjectCurrent(states[i].position.reading, states[k].project)
    ensures states[k].position == TemplateAgain(states[i].position.reading, true) && states[k].version <= states[i].version
  {
    hide Do;
    assert i > 0;
    PositionStep(states[i - 1], actions[i - 1]);
    if states[i - 1].position == states[i].position {
      k := ProjectReadAgain(states, actions, i - 1);
    } else {
      k := i - 1;
    }
  }

  lemma {:induction false} TemplateReadAgain(states: seq<State>, actions: seq<Action>, i: nat) returns (k: nat)
    requires IsRun(states, actions) && i < |states| && states[i].position.TemplateAgain? && states[i].position.current
    ensures k < i && actions[k].ConfirmTemplate? && TemplateCurrent(states[i].position.reading, states[k].template)
    ensures states[k].position.EnvironmentAgain? && states[k].position.reading == states[i].position.reading
    ensures states[k].version <= states[i].version
  {
    hide Do;
    assert i > 0;
    PositionStep(states[i - 1], actions[i - 1]);
    if states[i - 1].position == states[i].position {
      k := TemplateReadAgain(states, actions, i - 1);
    } else {
      k := i - 1;
    }
  }

  /**
   * Verification is a second look: a verified snapshot had been published
   * before some step `k` that found the live Template unchanged since it was
   * read and resolving to the very inputs that were published.
   */
  lemma {:induction false} VerifiedWasConfirmed(states: seq<State>, actions: seq<Action>, i: nat) returns (k: nat)
    requires IsRun(states, actions) && i < |states| && states[i].snapshot.Some? && states[i].snapshot.value.templateVerified
    ensures k < i && states[k].snapshot.Some? && !states[k].snapshot.value.templateVerified
    ensures states[k].snapshot.value.inputs == states[i].snapshot.value.inputs
    ensures ConfirmsTemplate(states[k], actions[k], states[i].snapshot.value.inputs)
  {
    hide Do;
    assert i > 0;
    InvAlways(states, actions, i - 1);
    TemplateConfirmed(states[i - 1], actions[i - 1]);
    if states[i - 1].snapshot.value.templateVerified {
      k := VerifiedWasConfirmed(states, actions, i - 1);
    } else {
      var m := ProjectReadAgain(states, actions, i - 1);
      k := TemplateReadAgain(states, actions, m);
      InvAlways(states, actions, k);
    }
  }

  lemma {:induction false} ProjectPresent(states: seq<State>, actions: seq<Action>, i: nat)
    requires IsRun(states, actions) && i < |states|
    ensures states[i].snapshot.Some? && states[i].snapshot.value.projectVerified ==> states[i].snapshot.value.project.Some?
  {
    hide Do;
    if i > 0 {
      ProjectPresent(states, actions, i - 1);
      InvAlways(states, actions, i - 1);
      SnapshotStep(states[i - 1], actions[i - 1]);
    }
  }

  lemma {:induction false} ProjectWasConfirmed(states: seq<State>, actions: seq<Action>, i: nat) returns (k: nat)
    requires IsRun(states, actions) && i < |states| && states[i].snapshot.Some? && states[i].snapshot.value.projectVerified
    ensures k < i && states[k].snapshot.Some? && states[i].snapshot.value.project.Some?
    ensures states[k].snapshot.value.project == states[i].snapshot.value.project && !states[k].snapshot.value.projectVerified
    ensures ConfirmsProject(states[k], actions[k], states[i].snapshot.value.project.value)
  {
    hide Do;
    assert i > 0;
    InvAlways(states, actions, i - 1);
    ProjectPresent(states, actions, i);
    ProjectConfirmed(states[i - 1], actions[i - 1]);
    if states[i - 1].snapshot.value.projectVerified {
      k := ProjectWasConfirmed(states, actions, i - 1);
    } else {
      k := ProjectReadAgain(states, actions, i - 1);
      InvAlways(states, actions, k);
    }
  }

  // ---------------------------------------------------------------------
  // Undisturbed passes
  // ---------------------------------------------------------------------

  /** The sources are there: the Template, and the Project the spec names, with one repository. */
  predicate SourcesThere(s: State) {
    && s.template.Some?
    && (s.spec.projectRef != "" ==>
          && s.project.Some? && s.project.value.name == s.spec.projectRef && |s.project.value.repositories| == 1
          && (s.spec.projectUid != 0 ==> s.project.value.uid == s.spec.projectUid))
  }

  function Read(s: State): Reading
    requires s.template.Some?
  {
    Reading(s.version, s.spec, s.snapshot, s.template.value, if s.spec.projectRef == "" then None else s.project)
  }

  /** The steps of one pass up to its decision, with nothing in between. */
  function ReadAll(s: State): State
    requires s.position.AtRest? && SourcesThere(s)
    ensures ReadAll(s) == s.(position := ProjectAgain(Read(s), true))
  {
    var s1 := Do(s, ReadEnvironment);
    var s2 := Do(s1, ReadProject);
    var s3 := Do(s2, ReadTemplate);
    var s4 := Do(s3, ConfirmEnvironment);
    var s5 := Do(s4, ConfirmTemplate);
    Do(s5, ConfirmProject)
  }

  function Undisturbed(s: State, legacyPvc: nat): State
    requires s.position.AtRest? && SourcesThere(s)
  {
    Do(ReadAll(s), Reconcile(true, legacyPvc, true))
  }

  lemma UndisturbedWrites(s: State, legacyPvc: nat)
    requires s.position.AtRest? && SourcesThere(s)
    ensures var d := Publish(Read(s), true, true, legacyPvc);
      var t := Undisturbed(s, legacyPvc);
      && t.position.AtRest? && SourcesThere(t) && t.spec == s.spec && t.template == s.template && t.project == s.project
      && t.snapshot == (if d.Write? then Some(d.next) else s.snapshot)
  {
  }

  /**
   * Left alone, provisioning comes to its end: from nothing one pass captures
   * sources that are fit for it, the next verifies the Template, the next the
   * Project if there is one, and then the gate passes.
   */
  lemma ProvisionsUndisturbed(s: State, legacyPvc: nat)
    requires s.position.AtRest? && SourcesThere(s) && s.snapshot.None?
    requires ValidTemplatePart(s.spec, Resolve(s.spec, s.template.value, Read(s).project, legacyPvc))
    ensures var found := Resolve(s.spec, s.template.value, Read(s).project, legacyPvc);
      var s1 := Undisturbed(s, legacyPvc);
      var s2 := Undisturbed(s1, legacyPvc);
      var s3 := Undisturbed(s2, legacyPvc);
      && s1.snapshot == Some(found) && !found.templateVerified && !found.projectVerified
      && s2.snapshot == Some(found.(templateVerified := true))
      && s3.snapshot == Some(found.(templateVerified := true, projectVerified := s.spec.projectRef != ""))
      && Publish(Read(s3), true, true, legacyPvc) == Pass
  {
    hide Undisturbed;
    UndisturbedWrites(s, legacyPvc);
    var s1 := Undisturbed(s, legacyPvc);
    UndisturbedWrites(s1, legacyPvc);
    var s2 := Undisturbed(s1, legacyPvc);
    UndisturbedWrites(s2, legacyPvc);
  }

  // ---------------------------------------------------------------------
  // Warm snapshots
  // ---------------------------------------------------------------------

  /** A verified snapshot without a Project still matches the Template's provisioning inputs. */
  predicate CurrentTemplate(s: Snapshot, t: Template) {
    && s.templateVerified && s.project.None? && s.inputs.template.name == t.name && s.inputs.template.uid == t.uid
    && var spec := Spec(t.name, "", 0, s.inputs.backend);
       && ValidTemplatePart(spec, s)
       && var p := Resolve(spec, t, None, 0);
          EqualIgnoringVerification(s,
            p.(inputs := p.inputs.(template := p.inputs.template.(generation := s.inputs.template.generation))))
  }

  /**
   * A warm snapshot is current exactly when it is verified, has no Project and
   * no migrated workspace, and holds what the Template of that incarnation
   * resolves to now, whatever the Template's generation and policy.
   */
  lemma CurrentTemplateIff(s: Snapshot, t: Template)
    ensures CurrentTemplate(s, t) <==>
      && s.templateVerified && s.project.None? && !s.projectVerified
      && s.inputs.template.name == t.name && s.inputs.template.uid == t.uid && t.uid != 0 && !Blank(t.name)
      && s.inputs.template.generation >= 1 && s.inputs.legacyPvc == 0
      && s.inputs.backend in {"pod", "kubevirt", "external-runner"}
      && s.inputs.image == t.image && !Blank(t.image) && s.inputs.runtimeClass == t.runtimeClass
      && s.inputs.size == (if t.size in SIZES then t.size else "medium") && s.inputs.resources == SIZES[s.inputs.size]
      && s.inputs.disk == (if t.disk.Some? then t.disk.value else 40) && s.inputs.disk > 0
  {
  }

  /** Edits that leave the provisioning inputs alone leave a warm snapshot current; any other edit does not. */
  lemma PolicyEditsKeepCurrent(s: Snapshot, t: Template, u: Template)
    requires CurrentTemplate(s, t)
    ensures CurrentTemplate(s, u) <==>
      && u.name == t.name && u.uid == t.uid && u.image == t.image && u.runtimeClass == t.runtimeClass
      && (if u.size in SIZES then u.size else DEFAULT_SIZE) == (if t.size in SIZES then t.size else DEFAULT_SIZE)
      && (if u.disk.Some? then u.disk.value else DEFAULT_DISK) == (if t.disk.Some? then t.disk.value else DEFAULT_DISK)
  {
  }

  // ---------------------------------------------------------------------
  // The operation
  // ---------------------------------------------------------------------

  /** The stored status: its snapshot, its resource version, and whether a connection is published. */
  class ProvisioningStatus {
    var snapshot: Option<Snapshot>
    var version: nat
    var connected: bool

    constructor ()
      ensures snapshot.None? && version == 0 && !connected
    {
      snapshot, version, connected := None, 0, false;
    }

    /** A status write guarded by the version that was read. */
    method Patch(r: Reading, next: Snapshot, keepConnection: bool, applied: bool)
      modifies this
      ensures var happens := applied && old(version) == r.version;
        && snapshot == (if happens then Some(next) else old(snapshot))
        && version == (if happens then old(version) + 1 else old(version))
        && connected == (if happens then old(connected) && keepConnection else old(connected))
    {
      if applied && version == r.version {
        snapshot := Some(next);
        version := version + 1;
        if !keepConnection {
          connected := false;
        }
      }
    }

    method VerifyProvisioningSnapshot(r: Reading, current: bool, verifyProject: bool, applied: bool) returns (v: Verdict)
      requires r.snapshot.Some?
      modifies this
      ensures v == Verify(r, current, verifyProject)
      ensures snapshot == if v.Write? && applied && old(version) == r.version then Some(v.next) else old(snapshot)
      ensures connected == old(connected)
    {
      var s := r.snapshot.value;
      var projection := Resolve(r.spec, r.template, r.project, s.inputs.legacyPvc);
      if verifyProject {
        // policy-only edits may have moved the generation of a warm Template
        var source := projection.inputs.template.(generation := s.inputs.template.generation);
        projection := projection.(inputs := projection.inputs.(template := source));
      }
      if !current || !EqualIgnoringVerification(s, projection) {
        return Refuse;
      }
      var next := s.(templateVerified := true);
      if verifyProject {
        next := next.(projectVerified := true);
      }
      Patch(r, next, true, applied);
      return Write(next);
    }

    /** One pass of the gate.  Binding a Project withdraws the connection in the same write. */
    method PublishProvisioningSnapshot(r: Reading, current: bool, fenced: bool, legacyPvc: nat, applied: bool) returns (v: Verdict)
      modifies this
      ensures v == Publish(r, current, fenced, legacyPvc)
      ensures snapshot == if v.Write? && applied && old(version) == r.version then Some(v.next) else old(snapshot)
      ensures v.Write? && r.snapshot.Some? && v.next.project != r.snapshot.value.project ==>
        !(applied && old(version) == r.version && connected)
    {
      if r.snapshot.None? {
        if !fenced {
          return Refuse;
        }
        if !current {
          return Wait;
        }
        var candidate := Resolve(r.spec, r.template, r.project, legacyPvc);
        if !ValidTemplatePart(r.spec, candidate) {
          return Refuse;
        }
        Patch(r, candidate, true, applied);
        return Write(candidate);
      }
      var s := r.snapshot.value;
      if !ValidTemplatePart(r.spec, s) {
        return Refuse;
      }
      if !s.templateVerified {
        v := VerifyProvisioningSnapshot(r, current, false, applied);
        return;
      }
      if s.inputs.template.name != r.template.name || s.inputs.template.uid != r.template.uid {
        return Refuse;
      }
      if r.spec.projectRef == "" {
        return if s.project.Some? then Refuse else Pass;
      }
      if r.project.None? {
        return Pass;
      }
      if s.project.Some? {
        if s.project.value.name != r.project.value.name || s.project.value.uid != r.project.value.uid {
          return Refuse;
        }
        if !s.projectVerified {
          v := VerifyProvisioningSnapshot(r, current, true, applied);
          return;
        }
        return Pass;
      }
      var next := s.(project := Resolve(r.spec, r.template, r.project, 0).project, projectVerified := false);
      if !ValidTemplatePart(r.spec, next) {
        return Refuse;
      }
      if !current {
        return Wait;
      }
      Patch(r, next, false, applied);
      return Write(next);
    }
  }
}
