/** The access-controlled service: a session, a user table, a report table
    and an enforcer. Every guarded operation resolves its target, builds a
    context from the session subject, asks for a decision and only then
    writes. */
module Services {
  import opened Wrappers
  import opened InputValidation
  import opened Models
  import Authz = Authorization

  /** The storage error: an id that does not resolve. */
  datatype DBError = UserNotFound(id: UserID)

  datatype ServiceError =
    | AccessDenied
    | UserAlreadyExists
    | DBError(dbError: DBError)
    | NotAPatient
    | NoSuchReport

  datatype LoginError = InvalidCredentials

  /** Checks a password against an optional stored hash. Without a hash the
      answer is always no (the dummy comparison that evens out the timing is
      not modelled); with one it is the hasher's answer. */
  function Verify(check: (string, PasswordHash) -> bool, password: string, hash: Option<PasswordHash>): (ok: bool)
    ensures hash.None? ==> !ok
    ensures hash.Some? ==> (ok <==> check(password, hash.value))
  {
    match hash
    case None => false
    case Some(h) => check(password, h)
  }

  /** A user table and a report table are consistent when every entry is
      stored under its own id and no two users share a username. */
  ghost predicate Consistent(users: map<UserID, UserData>, reports: map<ReportID, MedicalReport>) {
    && (forall id :: id in users ==> users[id].id == id)
    && (forall a, b :: a in users && b in users && users[a].username == users[b].username ==> a == b)
    && (forall id :: id in reports ==> reports[id].id == id)
  }

  /** The folder that `update-data` leaves behind: the existing folder with
      its data replaced, or a new folder with no doctor. */
  function FolderWithData(folder: Option<MedicalFolder>, pd: PersonalData): (f: MedicalFolder)
    ensures f.personalData == pd
    ensures folder.Some? ==> f.doctors == folder.value.doctors
    ensures folder.None? ==> f.doctors == {}
  {
    match folder
    case Some(f) => f.(personalData := pd)
    case None => NewFolder(pd)
  }

  /** The user with `doctor` added to (or removed from) its folder's treating doctors; a user
      without a folder is left as it is. */
  function WithDoctor(u: UserData, doctor: UserID, add: bool): (v: UserData)
    ensures v.id == u.id && v.role == u.role && v.username == u.username && v.password == u.password
    ensures v.medicalFolder.Some? <==> u.medicalFolder.Some?
    ensures u.medicalFolder.None? ==> v == u
    ensures u.medicalFolder.Some? ==>
              v.medicalFolder.value.personalData == u.medicalFolder.value.personalData
              && v.medicalFolder.value.doctors ==
                 (if add then u.medicalFolder.value.doctors + {doctor} else u.medicalFolder.value.doctors - {doctor})
  {
    match u.medicalFolder
    case None => u
    case Some(f) => u.(medicalFolder := Some(if add then AddDoctorTo(f, doctor) else RemoveDoctorFrom(f, doctor)))
  }

  /** The report table without any report about `patient`. */
  function WithoutReportsOf(reports: map<ReportID, MedicalReport>, patient: UserID): (r: map<ReportID, MedicalReport>)
    ensures forall id :: id in r <==> id in reports && reports[id].patient != patient
    ensures forall id :: id in r ==> r[id] == reports[id]
  {
    map id | id in reports && reports[id].patient != patient :: reports[id]
  }

  class Service {
    var user: Option<UserID>
    var users: map<UserID, UserData>
    var reports: map<ReportID, MedicalReport>
    const enforcer: Authz.Enforcer

    ghost predicate Valid()
      reads this
    {
      Consistent(users, reports)
    }

    /** A service over a loaded database, with no one logged in. */
    constructor (users0: map<UserID, UserData>, reports0: map<ReportID, MedicalReport>, enforcer0: Authz.Enforcer)
      requires Consistent(users0, reports0)
      ensures Valid()
      ensures user == None && users == users0 && reports == reports0 && enforcer == enforcer0
    {
      user := None;
      users := users0;
      reports := reports0;
      enforcer := enforcer0;
    }

    /** Some user is registered under `name`. */
    predicate Taken(name: Username)
      reads this
    {
      exists id :: id in users && users[id].username == name
    }

    /** The user registered under `name`, if any. */
    function LookupUsername(name: Username): (r: Option<UserData>)
      reads this
      requires Valid()
      ensures r.Some? <==> Taken(name)
      ensures r.Some? ==> r.value.id in users && users[r.value.id] == r.value && r.value.username == name
    {
      if Taken(name) then
        var id :| id in users && users[id].username == name;
        Some(users[id])
      else
        None
    }

    /** The id of the user registered under `name`, if any. */
    function LookupUser(name: Username): (r: Option<UserID>)
      reads this
      requires Valid()
      ensures r.Some? <==> Taken(name)
      ensures r.Some? ==> r.value in users && users[r.value].username == name
    {
      match LookupUsername(name)
      case None => None
      case Some(u) => Some(u.id)
    }

    /** The logged-in user's current record: none without a session, and none
        when the session id no longer resolves. */
    function Subject(): Option<UserData>
      reads this
    {
      if user.Some? && user.value in users then Some(users[user.value]) else None
    }

    /** An authorization context with the logged-in user as subject. */
    function Enforce(): (r: Result<Authz.Context, ServiceError>)
      reads this
      ensures r.Ok? <==> Subject().Some?
      ensures r.Ok? ==> r.value.subject == Subject().value && r.value.enforcer == enforcer
      ensures r.Err? ==> r.error == AccessDenied
    {
      match Subject()
      case None => Err(AccessDenied)
      case Some(s) => Ok(enforcer.WithSubject(s))
    }

    /** The enforcer, asked on behalf of the logged-in user, grants `act` on
        `obj`. With no resolvable session nothing is granted. */
    predicate Granted(obj: Authz.Object, act: string)
      reads this
    {
      match Enforce()
      case Err(_) => false
      case Ok(ctx) => Authz.Enforce(ctx, obj, act).Ok?
    }

    /** Granted means: there is a subject, and the engine decided yes for it;
        an evaluation error or a refusal grants nothing. */
    lemma GrantedMeans(obj: Authz.Object, act: string)
      ensures Granted(obj, act) <==>
                user.Some? && user.value in users &&
                enforcer.evaluate(users[user.value], obj, act) == Authz.Decided(true)
    {
    }

    /** Turns a decision into the service's error. */
    static function Decided(d: Result<(), Authz.AccessDenied>): (r: Result<(), ServiceError>)
      ensures r.Ok? <==> d.Ok?
      ensures r.Err? ==> r.error == AccessDenied
    {
      if d.Ok? then Ok(()) else Err(AccessDenied)
    }

    /** Registers a Patient without a folder under the fresh id `newId`,
        unless the username is taken. */
    method Register(username: Username, password: PasswordHash, newId: UserID) returns (r: Result<UserID, ServiceError>)
      requires Valid() && newId !in users
      modifies this
      ensures Valid()
      ensures user == old(user) && reports == old(reports)
      ensures old(Taken(username)) ==> r == Err(UserAlreadyExists) && users == old(users)
      ensures !old(Taken(username)) ==>
                r == Ok(newId) && users == old(users)[newId := UserData(newId, Patient, username, password, None)]
    {
      if LookupUsername(username).Some? {
        return Err(UserAlreadyExists);
      }
      users := users[newId := UserData(newId, Patient, username, password, None)];
      r := Ok(newId);
    }

    /** Logs in: the session becomes the user's id exactly when the password
        verifies against the stored hash; otherwise nothing changes. */
    method Login(username: Username, password: string, check: (string, PasswordHash) -> bool)
      returns (r: Result<UserID, LoginError>)
      requires Valid()
      modifies this
      ensures Valid()
      ensures users == old(users) && reports == old(reports)
      ensures r.Ok? ==> r.value in users && users[r.value].username == username
                        && check(password, users[r.value].password) && user == Some(r.value)
      ensures r.Err? ==> r.error == InvalidCredentials && user == old(user)
      ensures r.Err? <==> !old(Taken(username)) || !check(password, old(LookupUsername(username)).value.password)
    {
      var u := LookupUsername(username);
      var hash := if u.Some? then Some(u.value.password) else None;
      if !Verify(check, password, hash) {
        return Err(InvalidCredentials);
      }
      user := Some(u.value.id);
      r := Ok(u.value.id);
    }

    /** Closes the session. */
    method Logout()
      modifies this
      ensures user == None
      ensures users == old(users) && reports == old(reports)
    {
      user := None;
    }

    /** Changes a user's role, if the subject may. */
    method UpdateRole(userId: UserID, newRole: Role) returns (r: Result<(), ServiceError>)
      requires Valid()
      modifies this
      ensures Valid()
      ensures user == old(user) && reports == old(reports)
      ensures userId !in old(users) ==> r == Err(DBError(UserNotFound(userId)))
      ensures userId in old(users) ==>
                (r.Ok? <==> old(Granted(Authz.RoleChange(users[userId], newRole), "update-role")))
      ensures r.Err? ==> users == old(users)
      ensures r.Err? && userId in old(users) ==> r.error == AccessDenied
      ensures r.Ok? ==> users == old(users)[userId := old(users[userId]).(role := newRole)]
    {
      if userId !in users {
        return Err(DBError(UserNotFound(userId)));
      }
      var target := users[userId];
      var ctx :- Enforce();
      var _ :- Decided(Authz.UpdateRole(ctx, target, newRole));
      users := users[userId := target.(role := newRole)];
      r := Ok(());
    }

    /** A user's record, if the subject may read it. */
    function GetData(userId: UserID): (r: Result<UserData, ServiceError>)
      reads this
      ensures userId !in users ==> r == Err(DBError(UserNotFound(userId)))
      ensures userId in users ==> (r.Ok? <==> Granted(Authz.UserObject(users[userId]), "read-data"))
      ensures userId in users && r.Err? ==> r.error == AccessDenied
      ensures r.Ok? ==> r.value == users[userId]
    {
      if userId !in users then Err(DBError(UserNotFound(userId)))
      else
        var target := users[userId];
        var ctx :- Enforce();
        var _ :- Decided(Authz.ReadData(ctx, target));
        Ok(target)
    }

    /** Replaces a user's personal data, creating the folder if needed. */
    method UpdateData(userId: UserID, personalData: PersonalData) returns (r: Result<(), ServiceError>)
      requires Valid()
      modifies this
      ensures Valid()
      ensures user == old(user) && reports == old(reports)
      ensures userId !in old(users) ==> r == Err(DBError(UserNotFound(userId)))
      ensures userId in old(users) ==>
                (r.Ok? <==> old(Granted(Authz.UserObject(users[userId]), "update-data")))
      ensures r.Err? ==> users == old(users)
      ensures r.Err? && userId in old(users) ==> r.error == AccessDenied
      ensures r.Ok? ==> users == old(users)[userId := old(users[userId]).(medicalFolder :=
                          Some(FolderWithData(old(users[userId]).medicalFolder, personalData)))]
    {
      if userId !in users {
        return Err(DBError(UserNotFound(userId)));
      }
      var target := users[userId];
      var ctx :- Enforce();
      var _ :- Decided(Authz.UpdateData(ctx, target));
      users := users[userId := target.(medicalFolder := Some(FolderWithData(target.medicalFolder, personalData)))];
      r := Ok(());
    }

    /** Erases a patient's medical data: its folder and every report about it.
        Its identity and role stay. */
    method DeleteData(patient: UserID) returns (r: Result<(), ServiceError>)
      requires Valid()
      modifies this
      ensures Valid()
      ensures user == old(user)
      ensures patient !in old(users) ==> r == Err(DBError(UserNotFound(patient)))
      ensures patient in old(users) ==>
                (r.Ok? <==> old(Granted(Authz.UserObject(users[patient]), "delete-data")))
      ensures r.Err? ==> users == old(users) && reports == old(reports)
      ensures r.Err? && patient in old(users) ==> r.error == AccessDenied
      ensures r.Ok? ==> users == old(users)[patient := old(users[patient]).(medicalFolder := None)]
      ensures r.Ok? ==> reports == WithoutReportsOf(old(reports), patient)
    {
      if patient !in users {
        return Err(DBError(UserNotFound(patient)));
      }
      var target := users[patient];
      var ctx :- Enforce();
      var _ :- Decided(Authz.DeleteData(ctx, target));
      users := users[patient := target.(medicalFolder := None)];
      reports := WithoutReportsOf(reports, patient);
      r := Ok(());
    }

    /** Files a new report under the fresh id `newId`, if the subject may. */
    method AddReport(author: UserID, patient: UserID, title: string, content: string, newId: ReportID)
      returns (r: Result<(), ServiceError>)
      requires Valid() && newId !in reports
      modifies this
      ensures Valid()
      ensures user == old(user) && users == old(users)
      ensures patient !in old(users) ==> r == Err(DBError(UserNotFound(patient)))
      ensures patient in old(users) ==>
                (r.Ok? <==> old(Granted(Authz.PatientReport(users[patient],
                                          MedicalReport(newId, title, author, patient, content)), "add-report")))
      ensures r.Err? ==> reports == old(reports)
      ensures r.Err? && patient in old(users) ==> r.error == AccessDenied
      ensures r.Ok? ==> reports == old(reports)[newId := MedicalReport(newId, title, author, patient, content)]
    {
      var report := MedicalReport(newId, title, author, patient, content);
      if patient !in users {
        return Err(DBError(UserNotFound(patient)));
      }
      var patientData := users[patient];
      var ctx :- Enforce();
      var _ :- Decided(Authz.AddReport(ctx, patientData, report));
      reports := reports[newId := report];
      r := Ok(());
    }

    /** The reports about `userId` that the subject may read; nothing without
        a resolvable session. */
    function ListReports(userId: UserID): (r: set<MedicalReport>)
      reads this
      requires Valid()
      ensures Subject().None? ==> r == {}
      ensures forall rep :: rep in r ==>
                rep.patient == userId && userId in users && rep.id in reports && reports[rep.id] == rep
                && Granted(Authz.PatientReport(users[userId], rep), "read-report")
      ensures forall id :: (id in reports && reports[id].patient == userId && userId in users
                && Granted(Authz.PatientReport(users[userId], reports[id]), "read-report")) ==> reports[id] in r
    {
      match Enforce()
      case Err(_) => {}
      case Ok(ctx) =>
        set id | id in reports && reports[id].patient == userId && reports[id].patient in users
                 && Authz.ReadReport(ctx, reports[id], users[reports[id].patient]).Ok? :: reports[id]
    }

    /** The users whose folder lists the session's id as a treating doctor;
        nothing without a session. */
    function ListPatients(): (r: set<UserData>)
      reads this
      requires Valid()
      ensures user.None? ==> r == {}
      ensures forall p :: p in r ==>
                user.Some? && p.id in users && users[p.id] == p
                && p.medicalFolder.Some? && user.value in p.medicalFolder.value.doctors
      ensures user.Some? ==> forall id :: (id in users && users[id].medicalFolder.Some?
                && user.value in users[id].medicalFolder.value.doctors) ==> users[id] in r
    {
      match user
      case None => {}
      case Some(u) =>
        set id | id in users && users[id].medicalFolder.Some? && u in users[id].medicalFolder.value.doctors :: users[id]
    }

    /** Adds a treating doctor to a patient's folder. The doctor is resolved
        before the patient; a patient without a folder is left as it is. */
    method AddDoctor(patientId: UserID, doctorId: UserID) returns (r: Result<(), ServiceError>)
      requires Valid()
      modifies this
      ensures Valid()
      ensures user == old(user) && reports == old(reports)
      ensures doctorId !in old(users) ==> r == Err(DBError(UserNotFound(doctorId)))
      ensures doctorId in old(users) && patientId !in old(users) ==> r == Err(DBError(UserNotFound(patientId)))
      ensures doctorId in old(users) && patientId in old(users) ==>
                (r.Ok? <==> old(Granted(Authz.DoctorChange(users[patientId], users[doctorId]), "add-doctor")))
      ensures r.Err? ==> users == old(users)
      ensures r.Err? && doctorId in old(users) && patientId in old(users) ==> r.error == AccessDenied
      ensures r.Ok? ==> users == old(users)[patientId := WithDoctor(old(users[patientId]), doctorId, true)]
    {
      if doctorId !in users {
        return Err(DBError(UserNotFound(doctorId)));
      }
      var doctor := users[doctorId];
      if patientId !in users {
        return Err(DBError(UserNotFound(patientId)));
      }
      var patient := users[patientId];
      var ctx :- Enforce();
      var _ :- Decided(Authz.AddDoctor(ctx, patient, doctor));
      users := users[patientId := WithDoctor(patient, doctorId, true)];
      r := Ok(());
    }

    /** Removes a treating doctor from a patient's folder, in the same order as
        `AddDoctor`. */
    method RemoveDoctor(patientId: UserID, doctorId: UserID) returns (r: Result<(), ServiceError>)
      requires Valid()
      modifies this
      ensures Valid()
      ensures user == old(user) && reports == old(reports)
      ensures doctorId !in old(users) ==> r == Err(DBError(UserNotFound(doctorId)))
      ensures doctorId in old(users) && patientId !in old(users) ==> r == Err(DBError(UserNotFound(patientId)))
      ensures doctorId in old(users) && patientId in old(users) ==>
                (r.Ok? <==> old(Granted(Authz.DoctorChange(users[patientId], users[doctorId]), "remove-doctor")))
      ensures r.Err? ==> users == old(users)
      ensures r.Err? && doctorId in old(users) && patientId in old(users) ==> r.error == AccessDenied
      ensures r.Ok? ==> users == old(users)[patientId := WithDoctor(old(users[patientId]), doctorId, false)]
    {
      if doctorId !in users {
        return Err(DBError(UserNotFound(doctorId)));
      }
      var doctor := users[doctorId];
      if patientId !in users {
        return Err(DBError(UserNotFound(patientId)));
      }
      var patient := users[patientId];
      var ctx :- Enforce();
      var _ :- Decided(Authz.RemoveDoctor(ctx, patient, doctor));
      users := users[patientId := WithDoctor(patient, doctorId, false)];
      r := Ok(());
    }

    /** Replaces a report's content, if the subject may. */
    method UpdateReport(reportId: ReportID, content: string) returns (r: Result<(), ServiceError>)
      requires Valid()
      modifies this
      ensures Valid()
      ensures user == old(user) && users == old(users)
      ensures reportId !in old(reports) ==> r == Err(NoSuchReport)
      ensures reportId in old(reports) ==>
                (r.Ok? <==> old(Granted(Authz.ReportObject(reports[reportId]), "update-report")))
      ensures r.Err? ==> reports == old(reports)
      ensures r.Err? && reportId in old(reports) ==> r.error == AccessDenied
      ensures r.Ok? ==> reports == old(reports)[reportId := old(reports[reportId]).(content := content)]
    {
      if reportId !in reports {
        return Err(NoSuchReport);
      }
      var report := reports[reportId];
      var ctx :- Enforce();
      var _ :- Decided(Authz.UpdateReport(ctx, report));
      reports := reports[reportId := report.(content := content)];
      r := Ok(());
    }
  }

  /** Without a resolvable session nothing is granted and no report is listed. */
  lemma NoSubjectNoAccess(s: Service, obj: Authz.Object, act: string, patient: UserID)
    requires s.Valid() && s.Subject().None?
    ensures !s.Granted(obj, act)
    ensures s.GetData(patient).Err?
    ensures s.ListReports(patient) == {}
  {
  }

  /** Once no report about `patient` is stored, none is listed for it. */
  lemma NoReportsListedAfterDelete(s: Service, patient: UserID)
    requires s.Valid()
    requires forall id :: id in s.reports ==> s.reports[id].patient != patient
    ensures s.ListReports(patient) == {}
  {
  }

  /** With the default rules a Patient reading someone else's record is denied,
      while an Admin reads every record. */
  lemma ReadDataScenario(s: Service, userId: UserID)
    requires s.Valid() && Authz.FollowsPolicy(s.enforcer)
    requires s.Subject().Some? && userId in s.users
    ensures s.Subject().value.role == Patient && userId != s.user.value ==>
              s.GetData(userId) == Err(AccessDenied)
    ensures s.Subject().value.role == Admin ==> s.GetData(userId) == Ok(s.users[userId])
  {
  }
}
