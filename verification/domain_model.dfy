/** The app's records: the domain vital reading and stress alert, the signed-in
    user, and the data-layer vital record that Health Connect produces and the
    Firestore sync writes. Timestamps are epoch milliseconds. */
module DomainModel {
  import opened Common

  /** A vital-sign sample as the dashboard and the stress analyzer see it. */
  datatype VitalReading = VitalReading(
    heartRate: int,
    spo2: int,
    stressLevel: int,
    id: string,
    patientId: string,
    timestamp: int,
    bodyBattery: int,
    deviceSource: string)

  /** An alert raised by the stress analyzer; only `acknowledged` is ever changed afterwards. */
  datatype StressAlert = StressAlert(
    id: string,
    patientId: string,
    timestamp: int,
    severity: int,
    message: string,
    acknowledged: bool)

  /** The error text both home screens show for an exception without a message. */
  const UnknownErrorMessage := "Ocorreu um erro desconhecido"

  datatype UserRole = Nurse | Patient

  /** The signed-in account (the common part of the `Patient` and `Nurse` user records). */
  datatype AppUser = AppUser(id: string, name: string, email: string, role: UserRole)

  /** A patient as listed on the nurse's home screen. */
  datatype PatientProfile = PatientProfile(
    id: string,
    name: string,
    email: string,
    usesHealthConnect: bool,
    nurseIds: seq<string>)

  /** The data-layer vital record: every measurement is optional, because one
      Health Connect record carries only one of them. The measurements are
      carried, never computed with, so the fractional ones are kept as `real`. */
  datatype VitalRecord = VitalRecord(
    id: string,
    patientId: string,
    timestamp: int,
    heartRate: Option<int>,
    heartRateVariability: Option<real>,
    spo2: Option<real>,
    deviceSource: string)
}
