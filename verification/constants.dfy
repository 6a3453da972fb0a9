/** The shared constants of the web client (frontend/src/utils/constants.js), checked against
    the values the server's schemas and handlers accept. */
module Constants {
  import opened Wrappers
  import opened Text
  import opened Clock
  import opened UserModel
  import opened AppointmentModel
  import opened DoctorModel
  import AppointmentController
  import AuthController

  const AppointmentStatusValues: map<string, string> := map[
    "PENDING" := "pending",
    "CONFIRMED" := "confirmed",
    "COMPLETED" := "completed",
    "CANCELLED" := "cancelled"]

  const PaymentStatusValues: map<string, string> := map[
    "PENDING" := "pending",
    "PAID" := "paid",
    "REFUNDED" := "refunded"]

  const UserRoleValues: map<string, string> := map[
    "ADMIN" := "admin",
    "DOCTOR" := "doctor",
    "PATIENT" := "patient"]

  const DaysOfWeekList: seq<string> :=
    ["Monday", "Tuesday", "Wednesday", "Thursday", "Friday", "Saturday", "Sunday"]

  const TimeSlots: seq<string> := [
    "09:00", "09:30", "10:00", "10:30", "11:00", "11:30", "12:00", "12:30", "13:00", "13:30",
    "14:00", "14:30", "15:00", "15:30", "16:00", "16:30", "17:00", "17:30", "18:00"]

  /** Every client appointment status is one the schema accepts, and the client knows all of
      them but "proposed". */
  lemma AppointmentStatusesKnown()
    ensures forall k :: k in AppointmentStatusValues ==>
      ParseStatus(AppointmentStatusValues[k]).Some?
    ensures forall s: AppointmentStatus ::
      StatusName(s) in AppointmentStatusValues.Values <==> s != Proposed
  {
    forall k | k in AppointmentStatusValues
      ensures ParseStatus(AppointmentStatusValues[k]).Some?
    {
      assert AppointmentStatusValues[k] in StatusNames;
    }
    assert AppointmentStatusValues["PENDING"] == "pending";
    assert AppointmentStatusValues["CONFIRMED"] == "confirmed";
    assert AppointmentStatusValues["COMPLETED"] == "completed";
    assert AppointmentStatusValues["CANCELLED"] == "cancelled";
  }

  /** The client's appointment-payment statuses are exactly the schema's. */
  lemma PaymentStatusesMatch()
    ensures PaymentStatusValues.Values == set s | s in PaymentStatusNames
  {
    assert PaymentStatusValues["PENDING"] == "pending";
    assert PaymentStatusValues["PAID"] == "paid";
    assert PaymentStatusValues["REFUNDED"] == "refunded";
  }

  /** The client's roles are exactly the roles registration accepts, each naming a role. */
  lemma UserRolesMatch()
    ensures UserRoleValues.Values == set s | s in AuthController.AllowedRoles
    ensures forall r: Role :: RoleName(r) in UserRoleValues.Values
  {
    assert UserRoleValues["ADMIN"] == "admin";
    assert UserRoleValues["DOCTOR"] == "doctor";
    assert UserRoleValues["PATIENT"] == "patient";
  }

  /** The client's day list is the schema's availability enum: seven distinct names, Monday
      first. The booking handler's table, Sunday first, is the same list rotated by one, so a
      client index `i` is the `getDay()` value `(i + 1) % 7`. */
  lemma DaysOfWeekMatch()
    ensures DaysOfWeekList == WeekdayNames
    ensures forall i, j :: 0 <= i < j < |DaysOfWeekList| ==> DaysOfWeekList[i] != DaysOfWeekList[j]
    ensures forall i :: 0 <= i < 7 ==>
      AppointmentController.DaysOfWeek[(i + 1) % 7] == DaysOfWeekList[i]
  {
  }

  /** The well-formed time `hh:mm` from its four digit values. */
  lemma ClockFromDigits(t: string, h1: nat, h2: nat, m1: nat, m2: nat)
    requires |t| == 5 && t[2] == ':'
    requires h1 < 3 && h2 < 10 && m1 < 6 && m2 < 10 && h1 * 10 + h2 < 24
    requires t[0] == DigitChar(h1) && t[1] == DigitChar(h2)
    requires t[3] == DigitChar(m1) && t[4] == DigitChar(m2)
    ensures IsClock(t) && ClockMinutes(t) == (h1 * 10 + h2) * 60 + m1 * 10 + m2
  {
  }

  /** The nineteen slots are the half hours from 09:00 to 18:00, all well-formed. */
  lemma TimeSlotsAreHalfHours()
    ensures |TimeSlots| == 19
    ensures forall i :: 0 <= i < |TimeSlots| ==>
      IsClock(TimeSlots[i]) && ClockMinutes(TimeSlots[i]) == 9 * 60 + 30 * i
  {
    forall i | 0 <= i < |TimeSlots|
      ensures IsClock(TimeSlots[i]) && ClockMinutes(TimeSlots[i]) == 9 * 60 + 30 * i
    {
      if i < 10 {
        MorningSlot(i);
      } else {
        AfternoonSlot(i);
      }
    }
  }

  lemma MorningSlot(i: nat)
    requires i < 10
    ensures IsClock(TimeSlots[i]) && ClockMinutes(TimeSlots[i]) == 9 * 60 + 30 * i
  {
    var h := 9 + i / 2;
    ClockFromDigits(TimeSlots[i], h / 10, h % 10, 3 * (i % 2), 0);
  }

  lemma AfternoonSlot(i: nat)
    requires 10 <= i < 19
    ensures IsClock(TimeSlots[i]) && ClockMinutes(TimeSlots[i]) == 9 * 60 + 30 * i
  {
    var h := 9 + i / 2;
    ClockFromDigits(TimeSlots[i], 1, h - 10, 3 * (i % 2), 0);
  }

  /** The slots are in strictly increasing order, both as times and under the string `<` the
      server uses, so they are distinct. */
  lemma TimeSlotsIncreasing()
    ensures forall i, j :: 0 <= i < j < |TimeSlots| ==> StrLess(TimeSlots[i], TimeSlots[j])
  {
    TimeSlotsAreHalfHours();
    forall i, j | 0 <= i < j < |TimeSlots| ensures StrLess(TimeSlots[i], TimeSlots[j]) {
      ClockOrder(TimeSlots[i], TimeSlots[j]);
    }
  }
}
