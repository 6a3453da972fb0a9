# Medical appointment booking — a verified model of the server core

This project models the server side of a medical appointment booking system (an Express
and Mongoose backend), together with the client's formatting helpers and shared
constants. The server has three kinds of users: patients, doctors and admins.

- **Booking.** Patients book slots inside a doctor's weekly availability. Doctors may
  propose appointments, which patients accept. Either side moves an appointment through
  its statuses.
- **Payment.** Payments go through a card processor's checkout. A settlement records a
  completed payment and confirms the appointment. A refund is refused within 24 hours of
  the appointment.
- **Administration.** Admins vet doctors, read dashboard figures and permanently delete
  accounts together with everything that hangs off them.
- **Accounts.** Users register and log in.

## How the model is built

- **The database.** The five collections (users, doctor profiles, patient profiles,
  appointments, payments) live in one object, `Store.Db`. Each collection is a sequence
  in insertion order, so a `findOne` is the first match. `nextId` stands for ObjectId
  generation.
- **Handlers that write.** Each of these is a method that `modifies` the database. Its
  contract states the response and the whole new state, which is either unchanged or an
  exact update.
- **Handlers that only read.** These are functions that `reads` the database.
- **Responses.** A response is `Ok(value)` or `Err(status, message)`, with the source's
  status codes and messages.
- **The invariant.** Every handler keeps `Store.Consistent`:
  - all ids are below `nextId`;
  - ids and e-mails are unique;
  - a user has at most one profile of each kind;
  - every reference points at a user of the right role;
  - every payment points at an existing appointment with the same patient and doctor.

  Each kind of write has its own lemma proving that it keeps the invariant.
- **Guard chains.** A handler's chain of checks is a pure function, such as
  `BookingError`, `CheckoutTarget` or `RefundTarget`. Its contract lists which message
  each failing check produces, and the handler's contract is stated through it.
- **What stays outside.** The card processor, the mailer, password hashing and the clock
  are parameters:
  - whether the processor created the checkout session, and the session it returns;
  - whether the refund call succeeded;
  - whether the confirmation mails went out;
  - the password comparison;
  - the current instant.
- **Dates and times.**
  - A calendar date is a day number, where 0 is 1970-01-01, a Thursday.
  - An instant is milliseconds since then.
  - A time of day is the "HH:MM" text the forms send.
  - String order on zero-padded times is shown to be chronological order
    (`Clock.ClockOrder`). This is what the availability check relies on.
- **Mongoose behaviour that decides outcomes.** The model keeps four behaviours:
  - `create` and `save` validate required fields, so an empty required string fails, and
    they validate enums;
  - `findByIdAndUpdate` does not validate;
  - a failure after a write leaves the write in place, as in the confirmation handlers
    when mailing fails;
  - a failed validation is caught by the handler's `catch` and answered with its 500
    message.
- **Scenarios.** The `Scenarios` module chains handler calls to show what the handlers
  permit together:
  - the same slot proposed to two patients;
  - a cancelled appointment set back to "pending" after its slot was re-booked, which
    double-books the slot;
  - one intent settled twice, which records two completed payments;
  - a payment refunded once and, while the 24-hour window still allows it, refunded again.

## Model

| member | source | states |
|---|---|---|
| AppointmentModel.ParseStatus | Backend/models/Appointment.js:14-18 | a status string is accepted exactly when it is in the schema enum, and names the status it is read as |
| AppointmentModel.ParsePaymentStatus | Backend/models/Appointment.js:19-23 | a payment-status string is accepted exactly when it is in the enum |
| AppointmentModel.StatusNamesRoundTrip | Backend/models/Appointment.js:14-23 | every status has a name in its enum and reads back as itself |
| AppointmentModel.NewAppointmentDefaults | Backend/models/Appointment.js:12-26 | a creation naming neither status is pending / payment pending, lasts 30 minutes, has no payment id or notes, and carries its creation instant |
| PaymentModel.ParseChargeStatus | Backend/models/Payment.js:17-21 | a charge status is accepted exactly when it is in the enum |
| PaymentModel.NewPaymentDefaults | Backend/models/Payment.js:17-22 | a payment created without a status is "completed" and stamped with its creation instant |
| DoctorModel.ToEntry | Backend/models/Doctor.js:14-32 | casting an availability entry keeps day and times and makes `isAvailable` true unless false was given |
| DoctorModel.ToEntries | Backend/models/Doctor.js:14-32 | the cast list keeps length and order; each entry keeps its day and times and is available unless the body said false |
| DoctorModel.NewProfileDefaults | Backend/models/Doctor.js:3-35 | a creation without availability, rating or appointment count has an empty list and both counts 0, and stores the required fields as given |
| DoctorModel.UpdateProfile | Backend/controllers/doctorController.js:13-16 | every field the body carries is written, every field it omits is kept, and the id and owner never change |
| DoctorModel.UpdateProfileExtremes | Backend/controllers/doctorController.js:13-16 | an empty body leaves the profile unchanged; a body carrying every field leaves nothing of the old profile but id and user |
| UserModel.ParseRole | Backend/controllers/authController.js:15-16 | a role string is read exactly when it names one of the three roles |
| Clock.WeekdayCycle | Backend/controllers/appointmentController.js:23-25 | `getDay()` of a day number: day 0 is a Thursday, each next day is the next weekday, and the week repeats every seven days |
| Clock.ClockOrder | Backend/controllers/appointmentController.js:30 | on "HH:MM" times the string `<` is exactly the chronological order |
| Clock.TimeParts | Backend/controllers/paymentController.js:219 | the first two pieces of `split(":")`: the whole text when it has no colon; otherwise the text before the first colon, and the text after it up to the next colon or the end |
| Clock.NumberOf | Backend/controllers/paymentController.js:219 | `Number` of a piece: the exact integer value exactly for digit strings, 0 for the empty one, ending in the piece's last digit |
| Clock.TimeOfDayMs | Backend/controllers/paymentController.js:219-220 | a time of day only when the text has a colon and both pieces are digit strings; never negative, in whole minutes |
| Clock.InstantMs | Backend/controllers/paymentController.js:217-220 | an instant exactly when the time of day is valid, never before the start of its day |
| Clock.TimePartsOfClock | Backend/controllers/paymentController.js:219 | a well-formed time splits into its two-digit hour and minute |
| Clock.TimeOfDayMsOfClock | Backend/controllers/paymentController.js:219-220 | `setHours(h, m, 0, 0)` on a well-formed time adds its minute count in milliseconds |
| Clock.InstantMsOfClock | Backend/controllers/paymentController.js:217-220 | the appointment instant is its day times 24 hours plus its time of day |
| Store.FindUser | Backend/controllers/appointmentController.js:13 | `findById`: the first index holding that id, none before it; none is found exactly when no user has it |
| Store.FindUserByEmail | Backend/controllers/authController.js:20 | `findOne({email})`: the first account with that e-mail, none before it; none found exactly when no user has it |
| Store.FindProfile | Backend/controllers/doctorController.js:56 | the first profile with that id, none before it; found exactly when one has it |
| Store.FindProfileOf | Backend/controllers/doctorController.js:12 | the first profile of a user, none before it; none found exactly when the user has no profile |
| Store.FindAppointment | Backend/controllers/appointmentController.js:113 | the first appointment with that id, none before it; found exactly when one has it |
| Store.FindPaymentByIntent | Backend/controllers/paymentController.js:206 | the first payment with that intent, none before it, none found exactly when no payment has it |
| Store.FindAppointmentExact | Backend/controllers/appointmentController.js:113 | with unique ids, `findById` returns the very appointment carrying the id |
| Store.AppendAppointmentConsistent | Backend/controllers/appointmentController.js:43-51 | inserting an appointment with a fresh id between a patient and a doctor keeps the invariant |
| Store.UpdateAppointmentConsistent | Backend/controllers/appointmentController.js:117-118 | rewriting an appointment with the same id and parties keeps the invariant |
| Store.AppendPaymentConsistent | Backend/controllers/paymentController.js:85-92 | inserting a payment with a fresh id backed by its appointment keeps the invariant |
| Store.UpdatePaymentConsistent | Backend/controllers/paymentController.js:237-238 | rewriting a payment with the same id and references keeps the invariant |
| Store.AppendProfileConsistent | Backend/controllers/doctorController.js:18 | a first profile for a doctor user keeps the invariant |
| Store.UpdateProfileConsistent | Backend/controllers/doctorController.js:13-16 | rewriting a profile with the same id and user keeps the invariant |
| Store.AppendUserConsistent | Backend/controllers/authController.js:23-31 | a user with a fresh id and an unused e-mail keeps the invariant |
| Store.AppendPatientProfileConsistent | Backend/controllers/authController.js:35-37 | a first patient profile for a patient user keeps the invariant |
| Store.UpdateUserConsistent | Backend/controllers/adminController.js:24-25 | rewriting a user with the same id, e-mail and role keeps the invariant |
| Store.OtherUsers | Backend/controllers/adminController.js:115 | `findByIdAndDelete`: exactly the users with another id remain |
| Store.OtherUsersKeepRoles | Backend/controllers/adminController.js:115 | any other user keeps its role after a deletion |
| AppointmentController.EntryFor | Backend/controllers/appointmentController.js:24-26 | the first availability entry whose day is the date's weekday name, none before it; none exactly when no entry has it |
| AppointmentController.WithinWindow | Backend/controllers/appointmentController.js:30 | the start time itself is inside the window, the end time itself is not, and an entry without bounds admits every time |
| AppointmentController.WithinWindowHalfOpen | Backend/controllers/appointmentController.js:30-32 | on well-formed times the availability check is the half-open window start <= time < end |
| AppointmentController.FindOccupant | Backend/controllers/appointmentController.js:34-41 | a non-cancelled appointment of that doctor, date and time, none exactly when the slot is free |
| AppointmentController.FindProposal | Backend/controllers/appointmentController.js:83-91 | the same query also keyed on the patient |
| AppointmentController.BookingError | Backend/controllers/appointmentController.js:13-41 | the first failing guard's message, in the handler's order; none exactly when all pass |
| AppointmentController.BookingKeepsConsistent | Backend/controllers/appointmentController.js:34-51 | a booking past every guard keeps the invariant and leaves the new appointment the only non-cancelled holder of its slot |
| AppointmentController.BookAppointment | Backend/controllers/appointmentController.js:8-58 | 400 with the guard's message and no change; 500 for an empty time; otherwise exactly one pending appointment is added, which is then the slot's only non-cancelled holder |
| AppointmentController.ProposeAppointment | Backend/controllers/appointmentController.js:74-108 | "Invalid patient", "Slot already proposed or booked", 500 for an empty time; otherwise one proposed appointment is added |
| AppointmentController.AcceptAppointment | Backend/controllers/appointmentController.js:111-124 | only the named patient, only from "proposed": the status becomes pending, nothing else changes; otherwise 403 |
| AppointmentController.StatusGate | Backend/controllers/appointmentController.js:133-145 | cancelling only by the patient, confirming or completing only by the doctor, any other enum value or non-enum text by anyone |
| AppointmentController.UpdateAppointmentStatus | Backend/controllers/appointmentController.js:127-154 | 404; the two 403 role gates; 500 for a value outside the enum; otherwise only the status changes, whatever it was |
| AppointmentController.CancelAppointment | Backend/controllers/appointmentController.js:157-173 | the owning patient cancels from any status; otherwise 403 and no change |
| AppointmentController.GetPatientAppointments | Backend/controllers/appointmentController.js:61-71 | exactly the caller's appointments as patient, latest date first |
| PaymentController.CreatePaymentIntent | Backend/controllers/paymentController.js:17-63 | a checkout exactly for an appointment of the caller when the processor creates the session, charging the amount sent; 404 when the appointment is not the caller's; 500 "Payment setup failed" when the processor fails |
| PaymentController.Settlement | Backend/controllers/paymentController.js:84-98 | a completed payment of the appointment's fee for the intent; the appointment paid and confirmed with the intent attached |
| PaymentController.AfterSettlement | Backend/controllers/paymentController.js:84-98 | one payment more, one appointment rewritten, nothing else changed |
| PaymentController.SettlementConsistent | Backend/controllers/paymentController.js:84-98 | a settlement keeps the invariant |
| PaymentController.Settle | Backend/controllers/paymentController.js:84-98 | writes exactly that settlement |
| PaymentController.CheckoutTarget | Backend/controllers/paymentController.js:72-92 | the checkout guard chain: 500 without a session, 400 unpaid, 404 without the appointment, 500 without an intent |
| PaymentController.ConfirmCheckout | Backend/controllers/paymentController.js:68-133 | the guard's error with no change, or the settlement written; the answer is the receipt, or 500 when mailing failed after the writes |
| PaymentController.ConfirmTarget | Backend/controllers/paymentController.js:142-155 | 404 without the appointment, 500 without an intent |
| PaymentController.ConfirmPayment | Backend/controllers/paymentController.js:138-196 | the same as checkout confirmation, from a client-supplied intent |
| PaymentController.TooLateToRefund | Backend/controllers/paymentController.js:216-229 | refused only for a time with a colon, and only when the appointment's day starts less than 24 hours after now |
| PaymentController.TooLateOnClock | Backend/controllers/paymentController.js:216-229 | on a well-formed time a refund is refused exactly when the appointment is less than 24 hours away |
| PaymentController.NoColonNeverTooLate | Backend/controllers/paymentController.js:219-225 | a time without a colon gives an invalid date and never blocks a refund |
| PaymentController.RefundTarget | Backend/controllers/paymentController.js:201-234 | 404 payment, 404 appointment, 400 within 24 hours, 500 when the processor fails; otherwise the first payment with the intent and its appointment |
| PaymentController.RefundFindsAppointment | Backend/controllers/paymentController.js:211-214 | in a consistent database the second 404 never happens |
| PaymentController.RefundPayment | Backend/controllers/paymentController.js:201-249 | the payment becomes refunded and its appointment refunded and cancelled; nothing else changes |
| PaymentController.GetPaymentHistory | Backend/controllers/paymentController.js:254-276 | a patient's or doctor's own payments, every payment for an admin, newest first |
| AdminController.GetPendingDoctors | Backend/controllers/adminController.js:7-18 | exactly the profiles of active doctors not yet approved |
| AdminController.DoctorUserIndex | Backend/controllers/adminController.js:21-23 | the user with the id when it is a doctor, none exactly otherwise |
| AdminController.ApproveDoctor | Backend/controllers/adminController.js:20-27 | only that doctor's `isApproved` becomes true; 404 otherwise |
| AdminController.RejectDoctor | Backend/controllers/adminController.js:29-36 | only that doctor's `isActive` becomes false; 404 otherwise |
| AdminController.ApprovedNotPending | Backend/controllers/adminController.js:7-27 | after approval the doctor is no longer pending |
| AdminController.Revenue | Backend/controllers/adminController.js:49-52 | the sum over all payments of each one's amount when completed and 0 otherwise |
| AdminController.RevenueIsMaskedSum | Backend/controllers/adminController.js:49-52 | summing the completed payments' amounts equals summing, over all payments, what each contributes |
| AdminController.RevenueAfterPayment | Backend/controllers/adminController.js:49-52 | a completed payment adds exactly its amount to revenue |
| AdminController.RevenueAfterRefund | Backend/controllers/adminController.js:49-52 | refunding takes the payment's amount out only if it was completed |
| AdminController.RevenueWithoutCompleted | Backend/controllers/adminController.js:49-57 | without completed payments revenue is 0 |
| AdminController.GetStats | Backend/controllers/adminController.js:38-59 | active patients, approved active doctors, all appointments, completed revenue |
| AdminController.GetAllAppointments | Backend/controllers/adminController.js:61-67 | every appointment, newest first |
| AdminController.GetRevenue | Backend/controllers/adminController.js:69-75 | exactly the completed payments, newest first |
| AdminController.GetAllDoctors | Backend/controllers/adminController.js:77-87 | exactly the profiles of active doctors |
| AdminController.GetAllPatients | Backend/controllers/adminController.js:89-99 | exactly the profiles of active patients |
| AdminController.InvolvedIds | Backend/controllers/adminController.js:106-107 | exactly the ids of the user's appointments |
| AdminController.UnlinkedPayments | Backend/controllers/adminController.js:109 | exactly the payments not of those appointments |
| AdminController.OtherAppointments | Backend/controllers/adminController.js:111 | exactly the appointments not involving the user |
| AdminController.OtherPatientProfiles | Backend/controllers/adminController.js:113 | exactly the patient profiles of other users |
| AdminController.OtherProfiles | Backend/controllers/adminController.js:131 | exactly the doctor profiles of other users |
| AdminController.Cascade | Backend/controllers/adminController.js:101-135 | the deletion removes the user, its profile, its appointments and their payments, and nothing else |
| AdminController.CascadeConsistent | Backend/controllers/adminController.js:101-135 | the deletion leaves no reference to the user and keeps the invariant |
| AdminController.CascadeKeys | Backend/controllers/adminController.js:101-135 | the deletion keeps every id and e-mail unique |
| AdminController.CascadeLinked | Backend/controllers/adminController.js:101-135 | after the deletion every profile, appointment and payment still points at records that exist |
| AdminController.DeleteUser | Backend/controllers/adminController.js:101-135 | 404 unless the user has the role; otherwise exactly the cascade |
| AdminController.DeletePatient | Backend/controllers/adminController.js:101-117 | the cascade for a patient, with the handler's messages |
| AdminController.DeleteDoctor | Backend/controllers/adminController.js:119-135 | the cascade for a doctor, with the handler's messages |
| DoctorController.CreateValid | Backend/controllers/doctorController.js:18 | `create` validates exactly the required fields and every day the body names against the enum |
| DoctorController.CompleteDoctorProfile | Backend/controllers/doctorController.js:6-25 | 403 for non-doctors; an existing profile is overwritten without validation; otherwise a profile is created, or 500 when it fails validation |
| DoctorController.UpsertKeepsOneProfile | Backend/controllers/doctorController.js:12-19 | with at most one profile per user before, after either path the caller has exactly one profile, the one `findOne` returns |
| DoctorController.GetDoctors | Backend/controllers/doctorController.js:27-52 | exactly the profiles matching every given filter case-insensitively whose user is approved and active |
| DoctorController.GetDoctorById | Backend/controllers/doctorController.js:54-68 | the profile with the id when its user is approved, 404 otherwise |
| DoctorController.SaveValid | Backend/controllers/doctorController.js:74-75 | `save` passes exactly when the required strings are non-empty and every named day is in the enum |
| DoctorController.UpdateAvailability | Backend/controllers/doctorController.js:70-81 | 404 without a profile; the list is replaced, or 500 with no change when the save fails validation |
| DoctorController.GetDoctorAppointments | Backend/controllers/doctorController.js:83-93 | exactly the caller's appointments as doctor, latest date first |
| AuthController.GrantedRole | Backend/controllers/authController.js:29 | the role named, patient when none is |
| AuthController.RegistrationError | Backend/controllers/authController.js:10-21 | missing field, role outside the allowed list, e-mail taken, in that order; none exactly when all pass |
| AuthController.NewUser | Backend/controllers/authController.js:23-31 | the created account has the next id, the given e-mail and the granted role, and is approved exactly when it is not a doctor |
| AuthController.AfterRegistration | Backend/controllers/authController.js:23-37 | one user appended, one patient profile appended exactly for a patient, two or one ids used, the other tables unchanged |
| AuthController.RegistrationConsistent | Backend/controllers/authController.js:20-37 | a registration that passes the guards keeps the invariant (unique e-mails and ids, one profile per patient) |
| AuthController.RegisterUser | Backend/controllers/authController.js:7-55 | 400 with the guard's message and no change; otherwise the account of NewUser is answered and the database becomes AfterRegistration of the old one |
| AuthController.RegisteredLogin | Backend/controllers/authController.js:7-81 | right after registering, logging in with the same password succeeds exactly when the account is not a doctor; a doctor gets 403 "Doctor not approved" |
| AuthController.LoginUser | Backend/controllers/authController.js:57-81 | success only for a matching password of an account with that e-mail that is not an unapproved doctor; 401 when no account has the e-mail or no such account's password matches; 403 only for an unapproved doctor whose password matched |
| AuthController.LoginExact | Backend/controllers/authController.js:60-76 | with unique e-mails: success exactly for the matching password of an approved or non-doctor account, 401 for a wrong password, 403 for an unapproved doctor's right password |
| Helpers.LeadingDigits | frontend/src/utils/helpers.js:12 | the leading digit run `parseInt` reads |
| Helpers.ParseIntPrefix | frontend/src/utils/helpers.js:12 | after a "0x" or "0X" prefix the leading base-16 digits, NaN when there are none; otherwise a number exactly when the text starts with a digit, the exact integer value of its leading digits (so "9am" reads 9); the value of an all-digit text |
| Helpers.HexHours | frontend/src/utils/helpers.js:12 | "0x0C" reads as 12, while "0x" and "0xg" are NaN |
| Helpers.HexHourAfternoon | frontend/src/utils/helpers.js:11-15 | a base-16 hour decides the meridiem: "0x0C:30" shows PM |
| Helpers.DisplayHour | frontend/src/utils/helpers.js:14 | 1..12, congruent to the hour modulo 12 |
| Helpers.Meridiem | frontend/src/utils/helpers.js:13 | PM exactly from hour 12 on, AM for NaN |
| Helpers.FormatTime | frontend/src/utils/helpers.js:10-16 | ends in " AM" or " PM", PM exactly when the hour reads as 12 or more |
| Helpers.FormatTimeShape | frontend/src/utils/helpers.js:10-16 | on "HH:MM" the hour parses as the clock hour and the text is display hour, colon, minutes, space, meridiem |
| Helpers.TwelveHourPieces | frontend/src/utils/helpers.js:13-15 | for an hour below 24, `hour % 12 \|\| 12` and the AM/PM choice give the four-case clock text |
| Helpers.FormatTimeOfClock | frontend/src/utils/helpers.js:10-16 | equals the four-case 12-hour clock text (12 AM, h AM, 12 PM, h-12 PM) with the minutes verbatim; PM exactly from noon |
| Helpers.FormatTimeRoundTrip | frontend/src/utils/helpers.js:10-16 | reading the 12-hour text back gives the same minute of the day |
| Helpers.FormatTimeInjective | frontend/src/utils/helpers.js:10-16 | distinct well-formed times never display alike |
| Helpers.TwoDigits | frontend/src/utils/helpers.js:19 | the two-digit cents text of 0..99 |
| Helpers.FormatCurrency | frontend/src/utils/helpers.js:18-20 | "$" then dollars, a point and two cent digits |
| Helpers.FormatCurrencyRoundTrip | frontend/src/utils/helpers.js:18-20 | the text reads back as the same number of cents, negatives included |
| Helpers.FirstChar | frontend/src/utils/helpers.js:23 | `charAt(0)`: the first character, empty for an empty name |
| Helpers.GetInitials | frontend/src/utils/helpers.js:22-24 | one upper-cased character per non-empty name, no lower-case ASCII letter left |
| Helpers.DigitCount | frontend/src/utils/helpers.js:33 | at most the length, equal to it exactly for all-digit texts, 0 exactly when there is no digit |
| Helpers.DigitCountIsFilter | frontend/src/utils/helpers.js:33 | the count is the length of the text with every non-digit removed |
| Helpers.DigitCountAppend | frontend/src/utils/helpers.js:33 | the digits of two pieces add up |
| Helpers.ValidatePhone | frontend/src/utils/helpers.js:31-34 | a text of bare digits is valid exactly when it has ten or more; a valid number has a digit |
| Helpers.ValidPhoneShape | frontend/src/utils/helpers.js:31-34 | a valid number has at least ten characters, only class characters after an optional plus |
| Helpers.DigitsAreValidPhone | frontend/src/utils/helpers.js:31-34 | ten or more digits are valid with or without a leading plus |
| Helpers.LetterInvalidatesPhone | frontend/src/utils/helpers.js:31-34 | a letter anywhere makes a number invalid |
| Helpers.GetStatusColor | frontend/src/utils/helpers.js:36-46 | the listed colour of a known status, grey otherwise |
| Helpers.StatusColorCoverage | frontend/src/utils/helpers.js:36-46 | every appointment status but "proposed" is listed; "proposed" and "refunded" are grey; paid and confirmed share a colour |
| Helpers.CalculateAge | frontend/src/utils/helpers.js:48-57 | completed years: the birthday of that age has come, the next one has not |
| Helpers.AgeUnique | frontend/src/utils/helpers.js:48-57 | no other number of years has both properties |
| Helpers.AgeNonNegative | frontend/src/utils/helpers.js:48-57 | nobody born on or before today has a negative age |
| Helpers.IsTimeSlotAvailable | frontend/src/utils/helpers.js:59-64 | true exactly when no booked slot has the date and time |
| Helpers.SlotTakenOnceBooked | frontend/src/utils/helpers.js:59-64 | a listed slot is taken wherever it sits; adding another slot keeps a free one free |
| Constants.AppointmentStatusesKnown | frontend/src/utils/constants.js:15-20 | every client status is accepted by the schema; all statuses but "proposed" appear |
| Constants.PaymentStatusesMatch | frontend/src/utils/constants.js:22-26 | the client's payment statuses are exactly the schema's |
| Constants.UserRolesMatch | frontend/src/utils/constants.js:28-32 | the client's roles are exactly those registration accepts |
| Constants.DaysOfWeekMatch | frontend/src/utils/constants.js:34-42 | the day list is the availability enum, seven distinct names, the booking table rotated by one |
| Constants.ClockFromDigits | frontend/src/utils/constants.js:44-64 | four digits around a colon form a well-formed time whose minute of the day they give |
| Constants.TimeSlotsAreHalfHours | frontend/src/utils/constants.js:44-64 | nineteen well-formed times, the half hours from 09:00 to 18:00 |
| Constants.TimeSlotsIncreasing | frontend/src/utils/constants.js:44-64 | strictly increasing under the server's string order |
| Scenarios.ProposeSlotTwice | Backend/controllers/appointmentController.js:83-91 | one doctor slot proposed to two patients: both succeed and both hold the slot |
| Scenarios.ReopenAfterRebooking | Backend/controllers/appointmentController.js:127-154 | after a cancelled slot is re-booked, its patient can set it back to pending: two holders of one slot |
| Scenarios.AppendedKeepsIndex | Backend/controllers/appointmentController.js:43-51 | appending a booking with the next id leaves every earlier appointment found at its place by id |
| Scenarios.SettleTwice | Backend/controllers/paymentController.js:138-161 | settling one intent twice records two completed payments for one appointment |
| Scenarios.RefundTwice | Backend/controllers/paymentController.js:201-249 | the payment status is never consulted, so a refunded payment is refunded again, same payment and appointment, when the window and the processor allow |

## Left out

- Backend/models/User.js is not part of this model. The user fields are the ones the controllers read and write, and `isActive` is taken to default to true.
- The patient profile fields of Backend/models/Patient.js other than `user` are not used by the core and are left out.
- The card processor, the mailer, bcrypt and token signing are outside the model; each is a parameter. The processor's answers are whether it created the checkout session, the retrieved session and refund success; the mailer's is whether both mails went out; bcrypt's is a password comparison function. No token is produced.
- PaymentController.CreatePaymentIntent: the session URL and id the processor returns are not modelled; the answer is the checkout request sent, and any processor failure is the one 500 "Payment setup failed".
- Time zones and `Date` parsing are left out. A date is a day number in server time, and `new Date(date)` of the request text is not modelled.
- Concurrency between requests is left out: each handler runs atomically.
- Database failures in the read-only handlers (their "Failed to load …" 500 answers) are left out, as are `populate` projections: listings return the stored records.
- Request bodies with missing or mistyped fields beyond those the handlers check are left out. Mongoose type casting (a number sent as a string) is not modelled, and `User.create` never fails validation.
- The auth controller's `getUserProfile` is left out: it only echoes the authenticated user that the middleware loads.
- formatDate, validateEmail and getGreeting in helpers.js are left out: they depend on locale formatting, a regular expression with no bearing on the server, and the clock.
- Numeric fields (a doctor's `experience`, `consultationFee`, `rating` and `totalAppointments`, a payment's `amount`, an appointment's `consultationFee`) are JavaScript numbers, that is doubles, taken here as unbounded integers. A fractional fee such as 49.99 cannot be represented, and the `$sum` over such fees, with its rounding, is not modelled. On the integer cents the payment handler charges the two agree.
- Clock.NumberOf: reads only all-digit pieces; `Number` also accepts surrounding blanks, signs, decimals and hex, which the model reads as NaN. The value is the exact integer of the digits: `Number` rounds a digit run above 2^53 to the nearest double, which the model does not.
- Helpers.ParseIntPrefix: does not skip leading blanks or read a sign as `parseInt` does. The value is the exact integer of the leading digits: `parseInt` rounds a digit run above 2^53 to the nearest double ("99999999999999999999" reads 1e20, so `formatTime` of "99999999999999999999:00" shows "4:00 PM" where FormatTime gives "3:00 PM"), which the model does not.
- Helpers.FormatCurrency: takes integer cents; fractional amounts, and `toFixed` on amounts too large to be exact in a double, are not modelled.
- Helpers.GetStatusColor: does not model inherited object keys such as "constructor", which return a function instead of the grey default.
- Helpers.GetInitials: upper-cases ASCII letters only; other scripts' case mapping is not modelled.
- Helpers.CalculateAge: takes today and the birth date as calendar dates; reading them from the clock and parsing the text are left out.
- Helpers.IsTimeSlotAvailable: takes the date already as its "YYYY-MM-DD" text; `toISOString` of the parsed date is left out.
- DoctorController.GetDoctors: the filters are substring matches; regular-expression metacharacters in a query are not modelled, and case is folded for ASCII letters only.
- AdminController.Cascade: removes every profile of the user where the source's `findOneAndDelete` removes the first; under the invariant a user has at most one, so the two agree.
