/** The access-decision engine: a subject bound to an enforcer, and one
    decision per domain action, each failing closed. */
module Authorization {
  import opened Wrappers
  import opened Models

  /** The only error a decision reports, deliberately without detail. */
  datatype AccessDenied = AccessDenied

  /** The object of a decision, in the shapes the decision methods build. */
  datatype Object =
    | UserObject(user: UserData)
    | PatientReport(patient: UserData, report: MedicalReport)
    | ReportObject(report: MedicalReport)
    | RoleChange(target: UserData, role: Role)
    | DoctorChange(patient: UserData, doctor: UserData)

  /** What the rule engine answers: a decision, or an evaluation error. */
  datatype Evaluation = Decided(granted: bool) | EvalError

  /** A rule engine evaluating (subject, object, action) triples. */
  datatype Enforcer = Enforcer(evaluate: (UserData, Object, string) -> Evaluation)
  {
    /** Binds a subject to this engine. */
    function WithSubject(subject: UserData): (ctx: Context)
      ensures ctx.subject == subject && ctx.enforcer == this
    {
      Context(this, subject)
    }
  }

  datatype Context = Context(enforcer: Enforcer, subject: UserData)

  /** The action vocabulary of the policy. */
  datatype Action =
    | ReadDataAction | UpdateDataAction | DeleteDataAction | CreateFolderAction
    | AddReportAction | ReadReportAction | UpdateReportAction | UpdateRoleAction
    | AddDoctorAction | RemoveDoctorAction

  /** The name of each action as it appears in the policy. */
  function ActionName(a: Action): string {
    match a
    case ReadDataAction => "read-data"
    case UpdateDataAction => "update-data"
    case DeleteDataAction => "delete-data"
    case CreateFolderAction => "create-folder"
    case AddReportAction => "add-report"
    case ReadReportAction => "read-report"
    case UpdateReportAction => "update-report"
    case UpdateRoleAction => "update-role"
    case AddDoctorAction => "add-doctor"
    case RemoveDoctorAction => "remove-doctor"
  }

  /** The action a policy string names, if any. */
  function ParseAction(act: string): (r: Option<Action>)
    ensures r.Some? ==> ActionName(r.value) == act
    ensures forall a: Action :: ActionName(a) == act ==> r == Some(a)
  {
    if act == "read-data" then Some(ReadDataAction)
    else if act == "update-data" then Some(UpdateDataAction)
    else if act == "delete-data" then Some(DeleteDataAction)
    else if act == "create-folder" then Some(CreateFolderAction)
    else if act == "add-report" then Some(AddReportAction)
    else if act == "read-report" then Some(ReadReportAction)
    else if act == "update-report" then Some(UpdateReportAction)
    else if act == "update-role" then Some(UpdateRoleAction)
    else if act == "add-doctor" then Some(AddDoctorAction)
    else if act == "remove-doctor" then Some(RemoveDoctorAction)
    else None
  }

  /** The subject acts on its own record. */
  predicate IsSelf(subject: UserData, target: UserData) {
    subject.id == target.id
  }

  /** The object has the shape the decision methods build for the action. */
  predicate Fits(a: Action, obj: Object) {
    match a
    case ReadDataAction | UpdateDataAction | DeleteDataAction | CreateFolderAction => obj.UserObject?
    case AddReportAction | ReadReportAction => obj.PatientReport?
    case UpdateReportAction => obj.ReportObject?
    case UpdateRoleAction => obj.RoleChange?
    case AddDoctorAction | RemoveDoctorAction => obj.DoctorChange?
  }

  /** The default rule table: a closed decision over role, self-identity,
      folder presence and the treating-doctor relation. A triple whose action
      is unknown, or whose object does not have the action's shape, is denied;
      an Admin is granted every other triple; only an Admin changes a role. */
  function Policy(sub: UserData, obj: Object, act: string): (g: bool)
    ensures g ==> ParseAction(act).Some? && Fits(ParseAction(act).value, obj)
    ensures sub.role == Admin && ParseAction(act).Some? && Fits(ParseAction(act).value, obj) ==> g
    ensures g && act == "update-role" ==> sub.role == Admin
    ensures g && act == "create-folder" ==> sub.role != Doctor
    ensures g && act == "add-report" ==> sub.role != Patient
  {
    match ParseAction(act)
    case None => false
    case Some(a) =>
      match (a, obj)
      case (ReadDataAction, UserObject(t)) =>
        sub.role == Admin || IsSelf(sub, t) || (sub.role == Doctor && Treats(sub, t))
      case (UpdateDataAction, UserObject(t)) => sub.role == Admin || IsSelf(sub, t)
      case (DeleteDataAction, UserObject(t)) => sub.role == Admin || IsSelf(sub, t)
      case (CreateFolderAction, UserObject(t)) =>
        sub.role == Admin || (sub.role == Patient && IsSelf(sub, t))
      case (AddReportAction, PatientReport(p, _)) =>
        sub.role == Admin || (sub.role == Doctor && p.medicalFolder.Some?)
      case (ReadReportAction, PatientReport(p, r)) =>
        sub.role == Admin || sub.id == r.author || (sub.role == Doctor && Treats(sub, p))
      case (UpdateReportAction, ReportObject(r)) => sub.role == Admin || sub.id == r.author
      case (UpdateRoleAction, RoleChange(_, _)) => sub.role == Admin
      case (AddDoctorAction, DoctorChange(p, _)) => sub.role == Admin || IsSelf(sub, p)
      case (RemoveDoctorAction, DoctorChange(p, _)) => sub.role == Admin || IsSelf(sub, p)
      case _ => false
  }

  /** The engine loaded with the default rule table; it never errs. */
  const DefaultEnforcer: Enforcer := Enforcer((s, o, a) => Decided(Policy(s, o, a)))

  /** The engine answers every triple as the default rule table does. */
  ghost predicate FollowsPolicy(e: Enforcer) {
    forall sub, obj, act :: e.evaluate(sub, obj, act) == Decided(Policy(sub, obj, act))
  }

  lemma DefaultEnforcerFollowsPolicy()
    ensures FollowsPolicy(DefaultEnforcer)
  {
  }

  /** Asks the engine about (subject, object, action). Fails closed: only a
      decided grant is `Ok`; a refusal and an evaluation error both deny. */
  function Enforce(ctx: Context, obj: Object, act: string): (r: Result<(), AccessDenied>)
    ensures r.Ok? <==> ctx.enforcer.evaluate(ctx.subject, obj, act) == Decided(true)
    ensures r.Err? ==> r.error == AccessDenied
  {
    match ctx.enforcer.evaluate(ctx.subject, obj, act)
    case EvalError => Err(AccessDenied)
    case Decided(granted) => if granted then Ok(()) else Err(AccessDenied)
  }

  /** An evaluation error and a refusal are both turned into a denial. */
  lemma FailClosed(ctx: Context, obj: Object, act: string)
    ensures ctx.enforcer.evaluate(ctx.subject, obj, act) == EvalError ==>
              Enforce(ctx, obj, act) == Err(AccessDenied)
    ensures ctx.enforcer.evaluate(ctx.subject, obj, act) == Decided(false) ==>
              Enforce(ctx, obj, act) == Err(AccessDenied)
  {
  }

  /** An engine that always errs grants nothing. */
  lemma BrokenEngineDeniesAll(subject: UserData, obj: Object, act: string)
    ensures Enforce(Enforcer((s, o, a) => EvalError).WithSubject(subject), obj, act).Err?
  {
  }

  // The decision methods: each builds its object and action and enforces it.

  function ReadData(ctx: Context, patient: UserData): (r: Result<(), AccessDenied>)
    ensures r.Ok? <==> ctx.enforcer.evaluate(ctx.subject, UserObject(patient), "read-data") == Decided(true)
  {
    Enforce(ctx, UserObject(patient), "read-data")
  }

  function UpdateData(ctx: Context, target: UserData): (r: Result<(), AccessDenied>)
    ensures r.Ok? <==> ctx.enforcer.evaluate(ctx.subject, UserObject(target), "update-data") == Decided(true)
  {
    Enforce(ctx, UserObject(target), "update-data")
  }

  function DeleteData(ctx: Context, target: UserData): (r: Result<(), AccessDenied>)
    ensures r.Ok? <==> ctx.enforcer.evaluate(ctx.subject, UserObject(target), "delete-data") == Decided(true)
  {
    Enforce(ctx, UserObject(target), "delete-data")
  }

  function AddReport(ctx: Context, patient: UserData, report: MedicalReport): (r: Result<(), AccessDenied>)
    ensures r.Ok? <==> ctx.enforcer.evaluate(ctx.subject, PatientReport(patient, report), "add-report") == Decided(true)
  {
    Enforce(ctx, PatientReport(patient, report), "add-report")
  }

  function ReadReport(ctx: Context, report: MedicalReport, patient: UserData): (r: Result<(), AccessDenied>)
    ensures r.Ok? <==> ctx.enforcer.evaluate(ctx.subject, PatientReport(patient, report), "read-report") == Decided(true)
  {
    Enforce(ctx, PatientReport(patient, report), "read-report")
  }

  function UpdateReport(ctx: Context, report: MedicalReport): (r: Result<(), AccessDenied>)
    ensures r.Ok? <==> ctx.enforcer.evaluate(ctx.subject, ReportObject(report), "update-report") == Decided(true)
  {
    Enforce(ctx, ReportObject(report), "update-report")
  }

  function UpdateRole(ctx: Context, target: UserData, role: Role): (r: Result<(), AccessDenied>)
    ensures r.Ok? <==> ctx.enforcer.evaluate(ctx.subject, RoleChange(target, role), "update-role") == Decided(true)
  {
    Enforce(ctx, RoleChange(target, role), "update-role")
  }

  function AddDoctor(ctx: Context, target: UserData, doctor: UserData): (r: Result<(), AccessDenied>)
    ensures r.Ok? <==> ctx.enforcer.evaluate(ctx.subject, DoctorChange(target, doctor), "add-doctor") == Decided(true)
  {
    Enforce(ctx, DoctorChange(target, doctor), "add-doctor")
  }

  function RemoveDoctor(ctx: Context, target: UserData, doctor: UserData): (r: Result<(), AccessDenied>)
    ensures r.Ok? <==> ctx.enforcer.evaluate(ctx.subject, DoctorChange(target, doctor), "remove-doctor") == Decided(true)
  {
    Enforce(ctx, DoctorChange(target, doctor), "remove-doctor")
  }

  // The laws of the default rule table, one per action.

  /** read-data: an Admin always; anyone on its own record; a Doctor on a
      patient who lists it. */
  lemma ReadDataLaw(s: UserData, t: UserData)
    ensures ReadData(DefaultEnforcer.WithSubject(s), t).Ok? <==>
              s.role == Admin || s.id == t.id || (s.role == Doctor && Treats(s, t))
    ensures s.role == Patient ==> (ReadData(DefaultEnforcer.WithSubject(s), t).Ok? <==> s.id == t.id)
    ensures s.role == Doctor && s.id != t.id ==>
              (ReadData(DefaultEnforcer.WithSubject(s), t).Ok? <==> Treats(s, t))
  {
  }

  /** update-data and delete-data: an Admin, or the user itself. */
  lemma UpdateDeleteDataLaw(s: UserData, t: UserData)
    ensures UpdateData(DefaultEnforcer.WithSubject(s), t).Ok? <==> s.role == Admin || s.id == t.id
    ensures DeleteData(DefaultEnforcer.WithSubject(s), t).Ok? <==> s.role == Admin || s.id == t.id
  {
  }

  /** create-folder, asked through the generic entry point: an Admin, or a
      Patient for itself; a Doctor never. */
  lemma CreateFolderLaw(s: UserData, t: UserData)
    ensures Enforce(DefaultEnforcer.WithSubject(s), UserObject(t), "create-folder").Ok? <==>
              s.role == Admin || (s.role == Patient && s.id == t.id)
    ensures s.role == Doctor ==> Enforce(DefaultEnforcer.WithSubject(s), UserObject(t), "create-folder").Err?
  {
  }

  /** add-report: an Admin for anyone; a Doctor iff the patient has a folder;
      a Patient never, not even for itself. */
  lemma AddReportLaw(s: UserData, p: UserData, report: MedicalReport)
    ensures AddReport(DefaultEnforcer.WithSubject(s), p, report).Ok? <==>
              s.role == Admin || (s.role == Doctor && p.medicalFolder.Some?)
    ensures s.role == Patient ==> AddReport(DefaultEnforcer.WithSubject(s), p, report).Err?
  {
  }

  /** read-report: an Admin, the report's author, or a Doctor listed by the patient. */
  lemma ReadReportLaw(s: UserData, report: MedicalReport, p: UserData)
    ensures ReadReport(DefaultEnforcer.WithSubject(s), report, p).Ok? <==>
              s.role == Admin || s.id == report.author || (s.role == Doctor && Treats(s, p))
  {
  }

  /** update-report: an Admin, or the report's author. */
  lemma UpdateReportLaw(s: UserData, report: MedicalReport)
    ensures UpdateReport(DefaultEnforcer.WithSubject(s), report).Ok? <==>
              s.role == Admin || s.id == report.author
  {
  }

  /** update-role: an Admin only, whatever the target and the new role. */
  lemma UpdateRoleLaw(s: UserData, t: UserData, role: Role)
    ensures UpdateRole(DefaultEnforcer.WithSubject(s), t, role).Ok? <==> s.role == Admin
  {
  }

  /** add-doctor and remove-doctor: an Admin, or the patient itself. */
  lemma DoctorManagementLaw(s: UserData, p: UserData, d: UserData)
    ensures AddDoctor(DefaultEnforcer.WithSubject(s), p, d).Ok? <==> s.role == Admin || s.id == p.id
    ensures RemoveDoctor(DefaultEnforcer.WithSubject(s), p, d).Ok? <==> s.role == Admin || s.id == p.id
  {
  }

  /** An action the policy does not name is denied for every subject and object. */
  lemma UnknownActionDenied(s: UserData, obj: Object, act: string)
    requires forall a: Action :: ActionName(a) != act
    ensures Enforce(DefaultEnforcer.WithSubject(s), obj, act).Err?
  {
  }
}
