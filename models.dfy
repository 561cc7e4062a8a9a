/** The records of the medical-records application: users, their roles,
    their medical folders and the medical reports written about them. */
module Models {
  import opened Wrappers
  import opened InputValidation

  /** Opaque, unique user identifier (a UUID). */
  datatype UserID = UserID(uuid: nat)

  /** Opaque, unique report identifier (a UUID). */
  datatype ReportID = ReportID(uuid: nat)

  datatype Role = Admin | Doctor | Patient

  datatype BloodType = A | B | AB | O

  datatype PersonalData = PersonalData(avsNumber: AvsNumber, bloodType: BloodType)

  /** Personal data plus the set of treating doctors. */
  datatype MedicalFolder = MedicalFolder(personalData: PersonalData, doctors: set<UserID>)

  /** A serialised password hash; hashing itself is not modelled. */
  type PasswordHash = string

  datatype UserData = UserData(
    id: UserID,
    role: Role,
    username: Username,
    password: PasswordHash,
    medicalFolder: Option<MedicalFolder>)

  datatype MedicalReport = MedicalReport(
    id: ReportID,
    title: string,
    author: UserID,
    patient: UserID,
    content: string)

  /** A fresh folder: the given data and no treating doctor. */
  function NewFolder(personalData: PersonalData): (f: MedicalFolder)
    ensures f.personalData == personalData
    ensures forall d :: d !in f.doctors
  {
    MedicalFolder(personalData, {})
  }

  /** `doctor` treats `patient`: the doctor's id is listed in the patient's folder. */
  predicate Treats(doctor: UserData, patient: UserData) {
    patient.medicalFolder.Some? && doctor.id in patient.medicalFolder.value.doctors
  }

  /** The folder with `doctor` added to its treating doctors. */
  function AddDoctorTo(f: MedicalFolder, doctor: UserID): (g: MedicalFolder)
    ensures g.personalData == f.personalData
    ensures doctor in g.doctors
    ensures forall d :: d != doctor ==> (d in g.doctors <==> d in f.doctors)
  {
    f.(doctors := f.doctors + {doctor})
  }

  /** The folder with `doctor` removed from its treating doctors. */
  function RemoveDoctorFrom(f: MedicalFolder, doctor: UserID): (g: MedicalFolder)
    ensures g.personalData == f.personalData
    ensures doctor !in g.doctors
    ensures forall d :: d != doctor ==> (d in g.doctors <==> d in f.doctors)
  {
    f.(doctors := f.doctors - {doctor})
  }

  /** A new folder contains no doctor; adding one makes it listed, and
      removing it again gives back the new folder. */
  lemma FolderDoctorRoundTrip(pd: PersonalData, doctor: UserID)
    ensures doctor !in NewFolder(pd).doctors
    ensures doctor in AddDoctorTo(NewFolder(pd), doctor).doctors
    ensures RemoveDoctorFrom(AddDoctorTo(NewFolder(pd), doctor), doctor) == NewFolder(pd)
  {
    assert ({} + {doctor}) - {doctor} == {};
  }

  /** More generally, removing a doctor undoes adding one who was not listed. */
  lemma AddRemoveDoctorInverse(f: MedicalFolder, doctor: UserID)
    requires doctor !in f.doctors
    ensures RemoveDoctorFrom(AddDoctorTo(f, doctor), doctor) == f
  {
    assert (f.doctors + {doctor}) - {doctor} == f.doctors;
  }
}
