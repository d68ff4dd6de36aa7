# MediChain: session, API-client and record rules in Dafny

MediChain is a medical-records portal. It has a React front end and a FastAPI/SQLModel back end. This project models the parts of it that carry rules, and proves properties of them.

**Front end**
- **The browser session.** `localStorage` is modelled as a map from key to text. Each role (`patient`, `doctor`) has three keys: `{role}_access_token`, `{role}_refresh_token` and `{role}_data`.
- **The pages that read and write the session:**
  - the route guard;
  - the patient sidebar's logout;
  - patient login;
  - patient and doctor registration;
  - the doctor profile's account deletion.
- **The page-state lists** of the doctor's prescriptions and patients.
- **The API client.** This covers each endpoint's request, how a response becomes a value or an error message, and how a transport failure is rewritten. `fetch` is not modelled: what the transport produced is a parameter. Pages, lists and the session are classes whose methods update their fields. Each method is proved equal to a specification function, and the functions' properties are proved as lemmas.

**Back end**
- **The tables.** Each table is a map from row id to row inside one `Db` object.
- **The services:**
  - doctor–patient links;
  - prescriptions;
  - appointments;
  - consents;
  - lab reports;
  - audit logs;
  - patient and doctor accounts.
- **The legacy `auth_doctor_patient` app:** its doctor account service and its token bearers.
- **How each service method is proved.** The method updates the `Db` in place. It is proved to leave the tables exactly as a specification function on a `Tables` value says. It also preserves `ValidTables`, which says:
  - every row is stored under its own id, and every id is below the id counter;
  - every reference names an existing patient or doctor;
  - there is at most one link and one consent per (doctor, patient) pair;
  - patient and doctor emails are unique.
- **Parameters.** The password hash, the password check, JWT decoding, `JSON.parse`, ISO date conversion and the clock (`now`) are all parameters. Row ids come from a counter, standing in for `uuid4`.

**The guard does not clear a partial session.** It clears the role's three keys only when the profile text fails to parse or has no truthy `id`. When the access token or the profile is missing, it redirects and leaves the other keys in place (`ProtectedRoute.Decide`, `ProtectedRoute.CheckAuth`).

## Model

| member | source | states |
|---|---|---|
| Api.Path | src/lib/api.ts:174-339 | every list endpoint's path ends in "/" followed by the caller's id |
| Api.RequestFor | src/lib/api.ts:45-339 | the URL is the base URL plus the path. Signup and login are POSTs with only Content-Type and a JSON body. Refresh calls are GETs with only the bearer token and no body. Authenticated calls carry Content-Type and the bearer token, on GETs too |
| Api.Describe | src/lib/api.ts:21-28 | a string `detail`/`message` is used as it is; any other value becomes its JSON text, never "[object Object]" |
| Api.HandleResponse | src/lib/api.ts:13-41 | an ok response resolves to the parsed body; an ok body that is not JSON rejects with the SyntaxError; every non-ok response rejects with exactly one Error carrying the resolved message |
| Api.Settle | src/lib/api.ts:59-67 | a response is normalised by handleResponse, whose rejections pass the catch untouched; a TypeError mentioning "fetch" becomes the fixed network-error message; any other failure is rethrown unchanged |
| Api.Invoke | src/lib/api.ts:45-111 | one endpoint call sends exactly the request for that call and settles as Settle says |
| Api.ErrorMessageEmptyIff | src/lib/api.ts:16-37 | the message of a non-ok response is empty exactly when the body is the JSON string "" |
| Api.ErrorMessageNeverCoercesObject | src/lib/api.ts:16-38 | the message is "[object Object]" only when the server sent that very text |
| Api.ErrorMessageFromServer | src/lib/api.ts:16-38 | a non-ok message that no JSON text or status line can begin like is one the server sent, as status text or as a reported string |
| Api.SettleMessageOrigin | src/lib/api.ts:13-67 | a rejection carrying the network-error message comes from a fetch TypeError, or from an error or server that already carried that text; an empty message comes only from a failing response whose body is the JSON string "", an ok body rejected with an empty SyntaxError message, or a rethrown error without a message; "[object Object]" is never produced by coercing an object |
| Js.StringifyIsNotObjectCoercion | src/lib/api.ts:22-32 | JSON.stringify of any value differs from the String() coercion of an object |
| Storage.ClearSession | src/components/ProtectedRoute.tsx:31-33 | exactly the role's three keys are removed; every other key keeps its value |
| Storage.WriteSession | src/pages/PatientLogin.tsx:30-32 | the role's three keys are set to the given texts; every other key keeps its value |
| Storage.Browser.GetItem | src/components/ProtectedRoute.tsx:15-16 | `getItem` finds a value exactly when the key is set, and returns the stored value |
| Storage.Browser.SetItem | src/pages/PatientLogin.tsx:30 | one key is set and no effect is recorded |
| Storage.Browser.RemoveItem | src/components/PatientSidebar.tsx:45 | one key is removed and no effect is recorded |
| Storage.RoleKeysDisjoint | src/components/ProtectedRoute.tsx:15-16 | the patient's and the doctor's key sets are disjoint |
| Storage.WriteOrderIrrelevant | src/pages/PatientRegister.tsx:72-74 | the three writes give the same store in either order, so login and signup write the same session |
| Storage.ClearUndoesWrite | src/components/PatientSidebar.tsx:45-47 | clearing a written session gives what clearing the old store gives |
| Storage.ClearKeepsOtherRole | src/components/PatientSidebar.tsx:43-50 | clearing one role leaves the other role's keys exactly as they were |
| Storage.WriteKeepsOtherRole | src/pages/DoctorRegister.tsx:51-53 | writing one role's session leaves the other role's keys exactly as they were |
| ProtectedRoute.Decide | src/components/ProtectedRoute.tsx:15-35 | "not authenticated" iff the access token or profile is missing or empty; "allow" iff both are present and the profile parses with a truthy id; "invalid session" otherwise |
| ProtectedRoute.CheckAuth | src/components/ProtectedRoute.tsx:14-36 | the check returns Decide's verdict, clears storage only for an invalid session, and records the matching toast and redirect |
| ProtectedRoute.GuardIdempotent | src/components/ProtectedRoute.tsx:18-33 | a second check changes nothing; after a denial it always takes the "not authenticated" branch |
| ProtectedRoute.GuardTouchesOnlyRoleKeys | src/components/ProtectedRoute.tsx:15-33 | no key outside the checked role's three keys is added, removed or changed |
| ProtectedRoute.InvalidSessionClearsExactlyRoleKeys | src/components/ProtectedRoute.tsx:24-35 | a corrupt session loses exactly the role's three keys |
| ProtectedRoute.DecideReadsOnlyTokenAndProfile | src/components/ProtectedRoute.tsx:15-16 | two stores that agree on the access token and the profile get the same decision |
| ProtectedRoute.RefreshTokenIrrelevant | src/components/ProtectedRoute.tsx:15-16 | setting or removing the refresh token never changes the decision |
| ProtectedRoute.GuardKeepsOtherRoleDecision | src/components/ProtectedRoute.tsx:31-33 | a check for one role never changes the other role's decision |
| PatientSidebar.NameFromStorage | src/components/PatientSidebar.tsx:18-29 | the name stays "Patient" when patient_data is absent, empty, unparseable or null |
| PatientSidebar.Sidebar.Mount | src/components/PatientSidebar.tsx:20-31 | the mount effect sets the name NameFromStorage gives |
| PatientSidebar.Sidebar.HandleLogout | src/components/PatientSidebar.tsx:43-50 | logout clears exactly the patient's keys, then toasts and navigates to "/" |
| PatientSidebar.LogoutEndsPatientSessionOnly | src/components/PatientSidebar.tsx:45-47 | after logout the patient guard reports "not authenticated" and the doctor guard decides as before |
| PatientSidebar.LogoutIdempotent | src/components/PatientSidebar.tsx:45-47 | logging out twice is the same as once |
| PatientSidebar.NameIsStoredFullName | src/components/PatientSidebar.tsx:25-26 | a profile object shows its `full_name` |
| PatientLogin.LoginPage.HandleLogin | src/pages/PatientLogin.tsx:17-45 | the handler's storage and effects are LoginStore and LoginEffects of the settled call; loading is false afterwards whenever the call was made |
| PatientLogin.Settled | src/pages/PatientLogin.tsx:26-41 | the patient session is written only for a response with a truthy access_token; every other outcome shows one failure toast |
| PatientLogin.EmptyFieldSendsNothing | src/pages/PatientLogin.tsx:19-22 | an empty email or password sends no request and leaves storage as it was |
| PatientLogin.LoginRequestShape | src/lib/api.ts:70-81 | the login request is a POST to /patients/login with only Content-Type and the credentials as JSON |
| PatientLogin.LoginWritesOnlyPatientKeys | src/pages/PatientLogin.tsx:30-32 | no key outside the patient's three is changed |
| PatientLogin.FailureShowsMessage | src/pages/PatientLogin.tsx:36-41 | a failure writes nothing and ends with a non-empty failure toast |
| PatientLogin.LoginOpensPatientGuard | src/pages/PatientLogin.tsx:28-35 | a login returning a token and a profile with a truthy id opens the patient guard |
| PatientRegister.Validate | src/pages/PatientRegister.tsx:27-36 | a mismatch is reported first; then, when any of the five required fields is empty, the "required fields" error; otherwise no error |
| PatientRegister.DateOfBirth | src/pages/PatientRegister.tsx:42-55 | null for an empty or invalid date, otherwise that date's ISO text |
| PatientRegister.ErrorText | src/pages/PatientRegister.tsx:81-95 | a non-empty error message is shown as it is |
| PatientRegister.Complete | src/pages/PatientRegister.tsx:69-72 | registration completes exactly for a resolved, non-null response, carrying it; a rejection keeps its error; a `null` response fails with the TypeError of reading `patient` |
| PatientRegister.RegisterPage.HandleRegister | src/pages/PatientRegister.tsx:25-104 | the handler's storage and effects are RegisterStore and RegisterEffects of the settled call; loading is false afterwards whenever the call was made |
| PatientRegister.Settled | src/pages/PatientRegister.tsx:69-100 | the patient session is written only on a completed registration; otherwise one failure toast with ErrorText |
| PatientRegister.InvalidFormSendsNothing | src/pages/PatientRegister.tsx:27-36 | an invalid form writes nothing and only shows its validation error |
| PatientRegister.MismatchReportedFirst | src/pages/PatientRegister.tsx:27-30 | a mismatch is reported even when required fields are empty too |
| PatientRegister.OptionalFieldsNotRequired | src/pages/PatientRegister.tsx:31-36 | date of birth, gender and address never affect validation |
| PatientRegister.PayloadMapsFields | src/pages/PatientRegister.tsx:57-65 | name goes out as full_name; an empty gender or address goes out as null; the date is DateOfBirth; confirmPassword is never sent |
| PatientRegister.SessionWrittenOnlyOnResolve | src/pages/PatientRegister.tsx:69-74 | storage changes only for a valid form whose signup resolved to a non-null value |
| PatientRegister.ErrorTextForClientErrors | src/pages/PatientRegister.tsx:84-88 | for the client's own errors the page shows the message, or else the error's name |
| PatientRegister.PageNetworkBranchUnreachable | src/pages/PatientRegister.tsx:89-91 | the page's own network-error message is shown only if it was already the error's message or text |
| PatientRegister.EmptyStringBodyShowsErrorName | src/pages/PatientRegister.tsx:84-88 | a failing response whose body is the JSON string "" makes the page show "Error" |
| PatientRegister.MissingTokenStoredAsUndefined | src/pages/PatientRegister.tsx:72-74 | a missing token is stored as the text "undefined", which the guard treats as a token |
| PatientRegister.SuccessWritesPatientSession | src/pages/PatientRegister.tsx:69-77 | a valid form whose signup resolved to a non-null response writes all three patient keys (the tokens as `String()` of the response fields, the profile as JSON text), then sends, toasts success and opens /patient/dashboard |
| PatientRegister.RegisterOpensPatientGuard | src/pages/PatientRegister.tsx:69-74 | a signup returning a string token and a patient profile with a truthy id opens the patient guard |
| DoctorRegister.Validate | src/pages/DoctorRegister.tsx:26-33 | a mismatch is reported first; then, when any of the seven fields is empty, "fill in all fields"; otherwise no error |
| DoctorRegister.RegisterPage.HandleRegister | src/pages/DoctorRegister.tsx:24-63 | the handler's storage and effects are RegisterStore and RegisterEffects of the settled call; loading is false afterwards whenever the call was made |
| DoctorRegister.Settled | src/pages/DoctorRegister.tsx:48-60 | the doctor session is written for any non-null resolved response; otherwise one failure toast |
| DoctorRegister.EveryFieldRequired | src/pages/DoctorRegister.tsx:30-33 | an empty specialization or license number is refused |
| DoctorRegister.PayloadMapsFields | src/pages/DoctorRegister.tsx:38-46 | full_name carries the name; medical_license_number carries the license number; hospital_name is always ""; confirmPassword is never sent |
| DoctorRegister.FailureWritesNothing | src/pages/DoctorRegister.tsx:57-60 | an invalid form or failed signup leaves storage as it was |
| DoctorRegister.RegisterWritesOnlyDoctorKeys | src/pages/DoctorRegister.tsx:51-53 | no key outside the doctor's three is changed |
| DoctorRegister.FailureMessageNonEmpty | src/pages/DoctorRegister.tsx:59 | the failure toast is never empty |
| DoctorRegister.SuccessWritesDoctorSession | src/pages/DoctorRegister.tsx:48-56 | a valid form whose signup resolved to a non-null response writes all three doctor keys (the tokens as `String()` of the response fields, the profile as JSON text), then sends, toasts success and opens /doctor/dashboard |
| DoctorRegister.RegisterOpensDoctorGuard | src/pages/DoctorRegister.tsx:48-53 | a signup returning a string token and a doctor profile with a truthy id opens the doctor guard |
| DoctorProfile.FieldText | src/pages/doctor/DoctorProfile.tsx:38-43 | a falsy field gives ""; a string field gives its text |
| DoctorProfile.InitialForm | src/pages/doctor/DoctorProfile.tsx:19-52 | experience, education and bio are the fixed texts; without a parseable, non-null profile the defaults remain |
| DoctorProfile.DeleteRequest | src/pages/doctor/DoctorProfile.tsx:69-74 | a DELETE to /doctors/delete-account with only the bearer token and no body |
| DoctorProfile.DeleteFailureMessage | src/pages/doctor/DoctorProfile.tsx:83-90 | a transport failure shows the retry message |
| DoctorProfile.ProfilePage.Mount | src/pages/doctor/DoctorProfile.tsx:32-52 | the mount effect sets the form InitialForm gives |
| DoctorProfile.ProfilePage.HandleSave | src/pages/doctor/DoctorProfile.tsx:54-57 | saving only toasts and ends editing |
| DoctorProfile.ProfilePage.HandleDeleteAccount | src/pages/doctor/DoctorProfile.tsx:60-92 | the handler's storage and effects are DeleteStore and DeleteEffects |
| DoctorProfile.DeclineDoesNothing | src/pages/doctor/DoctorProfile.tsx:61 | declining the dialog changes nothing and records nothing |
| DoctorProfile.NoTokenSendsNothing | src/pages/doctor/DoctorProfile.tsx:63-67 | without an access token no request is sent and storage is untouched |
| DoctorProfile.DeletionEndsDoctorSession | src/pages/doctor/DoctorProfile.tsx:76-82 | a confirmed deletion removes exactly the doctor's three keys; the doctor guard then denies and the patient guard decides as before |
| DoctorProfile.FailedDeletionKeepsStorage | src/pages/doctor/DoctorProfile.tsx:83-90 | a deletion the server did not confirm leaves storage as it was |
| DoctorProfile.DetailShown | src/pages/doctor/DoctorProfile.tsx:84-85 | the server's string detail is shown as it is |
| DoctorProfile.FormFromProfile | src/pages/doctor/DoctorProfile.tsx:37-47 | each of the six fields (name, email, phone, specialization, license number, hospital) is filled from its profile field: "" when that field is missing or falsy, the text itself for a string, `String()` of any other truthy value; experience, education and bio keep their fixed texts |
| DoctorPrescriptions.WithNew | src/pages/doctor/DoctorPrescriptions.tsx:58-71 | exactly one record is appended: id one past the length, status "active", no refill request, the given fields; the earlier records are unchanged |
| DoctorPrescriptions.Edited | src/pages/doctor/DoctorPrescriptions.tsx:84-95 | the length is unchanged; records with another id are unchanged; on the matching record only its medication, dosage and duration change |
| DoctorPrescriptions.RefillApproved | src/pages/doctor/DoctorPrescriptions.tsx:105-108 | only the matching record's refill request is cleared |
| DoctorPrescriptions.PrescriptionsPage.constructor | src/pages/doctor/DoctorPrescriptions.tsx:16-52 | the page starts with the three records and closed dialogs |
| DoctorPrescriptions.PrescriptionsPage.HandleWritePrescription | src/pages/doctor/DoctorPrescriptions.tsx:54-76 | the list becomes WithNew of the old list; loading is cleared and the dialog closed; the ids stay 1..n |
| DoctorPrescriptions.PrescriptionsPage.OpenEdit | src/pages/doctor/DoctorPrescriptions.tsx:252-253 | only the selection and the edit dialog change |
| DoctorPrescriptions.PrescriptionsPage.HandleEditPrescription | src/pages/doctor/DoctorPrescriptions.tsx:78-101 | with no selection nothing changes; otherwise the list becomes Edited for the selected id; loading ends false |
| DoctorPrescriptions.PrescriptionsPage.HandleApproveRefill | src/pages/doctor/DoctorPrescriptions.tsx:103-112 | the list becomes RefillApproved; loading ends false |
| DoctorPrescriptions.InitialIdsSequential | src/pages/doctor/DoctorPrescriptions.tsx:16-47 | the initial records are numbered 1..3 |
| DoctorPrescriptions.WithNewKeepsIdsSequential | src/pages/doctor/DoctorPrescriptions.tsx:60 | appending keeps the ids 1..n |
| DoctorPrescriptions.SequentialIdsDistinct | src/pages/doctor/DoctorPrescriptions.tsx:60 | ids 1..n are pairwise distinct |
| DoctorPrescriptions.RunKeepsIdsSequential | src/pages/doctor/DoctorPrescriptions.tsx:54-112 | any run of the three handlers keeps the ids 1..n and distinct |
| DoctorPrescriptions.RunNeverShrinks | src/pages/doctor/DoctorPrescriptions.tsx:71 | no run of the handlers shortens the list |
| DoctorPrescriptions.RefillIdempotent | src/pages/doctor/DoctorPrescriptions.tsx:105-108 | approving twice is approving once |
| DoctorPrescriptions.EditIdempotent | src/pages/doctor/DoctorPrescriptions.tsx:86-95 | repeating an edit changes nothing more |
| DoctorPrescriptions.EditTouchesOneRecord | src/pages/doctor/DoctorPrescriptions.tsx:86-95 | when the ids are 1..n, an edit changes only record k, and an unknown id changes nothing |
| PatientsPage.ConditionOrGeneral | src/pages/doctor/Patients.tsx:65 | an empty condition becomes "General"; any other is kept |
| PatientsPage.WithNewPatient | src/pages/doctor/Patients.tsx:57-70 | exactly one patient is appended with id one past the length, status "active" and the given fields; the earlier patients are unchanged |
| PatientsPage.PatientList.constructor | src/pages/doctor/Patients.tsx:15-51 | the list starts with the three patients and closed dialogs |
| PatientsPage.PatientList.HandleAddPatient | src/pages/doctor/Patients.tsx:53-75 | the list becomes WithNewPatient of the old list; loading and the dialog are cleared; the selection is unchanged |
| PatientsPage.PatientList.HandleViewProfile | src/pages/doctor/Patients.tsx:77-80 | only the selection and the profile dialog change, never the list |
| PatientsPage.PatientList.HandleScheduleAppointment | src/pages/doctor/Patients.tsx:82-88 | no patient data changes; only a toast is recorded |
| PatientsPage.InitialIdsSequential | src/pages/doctor/Patients.tsx:15-46 | the initial patients are numbered 1..3 |
| PatientsPage.AddKeepsIdsSequential | src/pages/doctor/Patients.tsx:59 | adding keeps the ids 1..n |
| PatientsPage.AddAllExtends | src/pages/doctor/Patients.tsx:70 | a run of additions only grows the list; earlier patients keep their place and data |
| Database.Select | app/medi_chain_backend/src/prescriptions/service.py:24-28 | a `where` query returns exactly the matching rows, one entry per matching key |
| Database.ScalarOneOrNone | app/medi_chain_backend/src/prescriptions/service.py:19-22 | `scalar_one_or_none` returns the only matching row, or none when nothing matches |
| Database.PairHasAtMostOneRow | app/medi_chain_backend/src/doctor_patient/service.py:51-57 | a (doctor, patient) pair has at most one link row and at most one consent, so the pair lookups here and the consent lookup of a pair never find two |
| Database.PatientAddedKeepsValid | app/medi_chain_backend/src/patients/service.py:18-37 | adding a patient under a fresh id with an unused email keeps every table invariant |
| Database.DoctorAddedKeepsValid | app/medi_chain_backend/src/doctors/service.py:18-36 | adding a doctor under a fresh id with an unused email keeps every table invariant |
| DoctorPatientService.GetDoctorPatientById | app/medi_chain_backend/src/doctor_patient/service.py:13-16 | finds a row exactly when the id is stored, and returns that row |
| DoctorPatientService.GetDoctorsByPatient | app/medi_chain_backend/src/doctor_patient/service.py:18-22 | returns exactly the links of that patient, each once |
| DoctorPatientService.GetPatientsByDoctor | app/medi_chain_backend/src/doctor_patient/service.py:24-28 | returns exactly the links of that doctor, each once |
| DoctorPatientService.CreateDoctorPatient | app/medi_chain_backend/src/doctor_patient/service.py:30-80 | the result and the tables are as Create says; the invariants are kept |
| DoctorPatientService.UpdateDoctorPatient | app/medi_chain_backend/src/doctor_patient/service.py:82-98 | the result and the tables are as Update says; the invariants are kept |
| DoctorPatientService.DeleteDoctorPatient | app/medi_chain_backend/src/doctor_patient/service.py:100-109 | the result and the tables are as Delete says; the invariants are kept |
| DoctorPatientService.Patch | app/medi_chain_backend/src/doctor_patient/service.py:90-93 | only the non-None fields replace the row's; id, pair and assignment time stay |
| DoctorPatientService.CreateChecksInOrder | app/medi_chain_backend/src/doctor_patient/service.py:32-70 | a missing patient gives 404 first, then a missing doctor gives 404, then an active pair gives 400; every error leaves the tables unchanged |
| DoctorPatientService.CreateLeavesOneActiveLink | app/medi_chain_backend/src/doctor_patient/service.py:51-80 | after a successful create the pair has exactly one row, the returned one, and it is active |
| DoctorPatientService.CreateTouchesOnlyLinks | app/medi_chain_backend/src/doctor_patient/service.py:30-80 | create changes only the link table and uses at most one new id |
| DoctorPatientService.CreateKeepsOtherPairs | app/medi_chain_backend/src/doctor_patient/service.py:59-80 | every row of another pair is unchanged |
| DoctorPatientService.CreateTwiceRefused | app/medi_chain_backend/src/doctor_patient/service.py:67-70 | creating the same pair again gives 400 and changes nothing |
| DoctorPatientService.DeactivateThenCreateReactivates | app/medi_chain_backend/src/doctor_patient/service.py:59-66 | creating a deactivated pair reactivates that same row and adds none |
| DoctorPatientService.ReactivatedKeepsValid | app/medi_chain_backend/src/doctor_patient/service.py:59-66 | reactivation keeps every invariant |
| DoctorPatientService.LinkedKeepsValid | app/medi_chain_backend/src/doctor_patient/service.py:72-80 | adding a link for an unlinked, existing pair keeps every invariant |
| DoctorPatientService.CreateKeepsValid | app/medi_chain_backend/src/doctor_patient/service.py:30-80 | create keeps every invariant |
| DoctorPatientService.PatchEmptyIsIdentity | app/medi_chain_backend/src/doctor_patient/service.py:90-93 | an update with no fields changes nothing |
| DoctorPatientService.PatchIdempotent | app/medi_chain_backend/src/doctor_patient/service.py:90-93 | applying an update twice is applying it once |
| DoctorPatientService.UpdateKeepsPairsUnique | app/medi_chain_backend/src/doctor_patient/service.py:90-93 | an update never breaks pair uniqueness |
| DoctorPatientService.UpdateKeepsValid | app/medi_chain_backend/src/doctor_patient/service.py:82-98 | update keeps every invariant |
| DoctorPatientService.DeleteKeepsValid | app/medi_chain_backend/src/doctor_patient/service.py:100-109 | delete keeps every invariant |
| DoctorPatientService.DeleteThenMissing | app/medi_chain_backend/src/doctor_patient/service.py:100-109 | after delete, update and delete of that id give 404, and linking the pair again adds a fresh active row |
| PrescriptionService.Patch | app/medi_chain_backend/src/prescriptions/service.py:100-110 | only non-None medication, dosage and instructions replace the row's; the ids and creation time stay |
| PrescriptionService.GetPrescriptionById | app/medi_chain_backend/src/prescriptions/service.py:19-22 | finds a row exactly when the id is stored, and returns that row |
| PrescriptionService.GetPrescriptionsByPatient | app/medi_chain_backend/src/prescriptions/service.py:24-28 | returns exactly the patient's prescriptions, each once |
| PrescriptionService.GetPrescriptionsByDoctor | app/medi_chain_backend/src/prescriptions/service.py:30-34 | returns exactly the doctor's prescriptions, each once |
| PrescriptionService.CreatePrescription | app/medi_chain_backend/src/prescriptions/service.py:36-91 | the result and the tables are as Create says; the invariants are kept |
| PrescriptionService.UpdatePrescription | app/medi_chain_backend/src/prescriptions/service.py:93-127 | the result and the tables are as Update says (the UPDATE audit entry only with an actor); the invariants are kept |
| PrescriptionService.DeletePrescription | app/medi_chain_backend/src/prescriptions/service.py:129-150 | the result and the tables are as Delete says; the invariants are kept |
| PrescriptionService.InsertedKeepsValid | app/medi_chain_backend/src/prescriptions/service.py:69-78 | a new row under a fresh id keeps every invariant |
| PrescriptionService.ReplacedKeepsValid | app/medi_chain_backend/src/prescriptions/service.py:100-114 | rewriting a row in place keeps every invariant |
| PrescriptionService.RemovedKeepsValid | app/medi_chain_backend/src/prescriptions/service.py:136-137 | removing a row keeps every invariant |
| PrescriptionService.CreateKeepsValid | app/medi_chain_backend/src/prescriptions/service.py:36-91 | create keeps every invariant |
| PrescriptionService.UpdateKeepsValid | app/medi_chain_backend/src/prescriptions/service.py:93-127 | update keeps every invariant |
| PrescriptionService.DeleteKeepsValid | app/medi_chain_backend/src/prescriptions/service.py:129-150 | delete keeps every invariant |
| PrescriptionService.CreateChecksPatientThenDoctor | app/medi_chain_backend/src/prescriptions/service.py:37-55 | a missing patient gives 404 first, then a missing doctor; an error stores nothing |
| PrescriptionService.CreateLinksPair | app/medi_chain_backend/src/prescriptions/service.py:57-78 | with both present, create succeeds, leaves exactly one active link for the pair, and stores a new row copying the inputs |
| PrescriptionService.CreateAuditedIffActor | app/medi_chain_backend/src/prescriptions/service.py:80-89 | without an actor no audit entry is added; with one, exactly one CREATE_PRESCRIPTION entry naming the new row |
| PrescriptionService.PatchEmptyIsIdentity | app/medi_chain_backend/src/prescriptions/service.py:100-110 | an update with no fields changes nothing |
| PrescriptionService.PatchIdempotent | app/medi_chain_backend/src/prescriptions/service.py:100-110 | applying an update twice is applying it once |
| PrescriptionService.MissingPrescriptionChangesNothing | app/medi_chain_backend/src/prescriptions/service.py:94-98 | update and delete of an unknown id give 404 and change nothing |
| PrescriptionService.DeleteRemoves | app/medi_chain_backend/src/prescriptions/service.py:129-148 | delete removes exactly that row; with an actor it logs DELETE_PRESCRIPTION for that id; a second delete gives 404 |
| AppointmentService.Patch | app/medi_chain_backend/src/appointments/service.py:101-108 | only non-None date, reason, notes and status replace the row's; the ids and creation time stay |
| AppointmentService.GetAppointmentById | app/medi_chain_backend/src/appointments/service.py:19-22 | finds a row exactly when the id is stored, and returns that row |
| AppointmentService.GetAppointmentsByPatient | app/medi_chain_backend/src/appointments/service.py:24-28 | returns exactly the patient's appointments, each once |
| AppointmentService.GetAppointmentsByDoctor | app/medi_chain_backend/src/appointments/service.py:30-34 | returns exactly the doctor's appointments, each once |
| AppointmentService.CreateAppointment | app/medi_chain_backend/src/appointments/service.py:36-91 | the result and the tables are as Create says; the invariants are kept |
| AppointmentService.UpdateAppointment | app/medi_chain_backend/src/appointments/service.py:93-125 | the result and the tables are as Update says (the UPDATE audit entry only with an actor); the invariants are kept |
| AppointmentService.DeleteAppointment | app/medi_chain_backend/src/appointments/service.py:127-148 | the result and the tables are as Delete says; the invariants are kept |
| AppointmentService.InsertedKeepsValid | app/medi_chain_backend/src/appointments/service.py:69-78 | a new row under a fresh id keeps every invariant |
| AppointmentService.ReplacedKeepsValid | app/medi_chain_backend/src/appointments/service.py:101-112 | rewriting a row in place keeps every invariant |
| AppointmentService.RemovedKeepsValid | app/medi_chain_backend/src/appointments/service.py:127-135 | removing a row keeps every invariant |
| AppointmentService.CreateKeepsValid | app/medi_chain_backend/src/appointments/service.py:36-91 | create keeps every invariant |
| AppointmentService.UpdateKeepsValid | app/medi_chain_backend/src/appointments/service.py:93-125 | update keeps every invariant |
| AppointmentService.DeleteKeepsValid | app/medi_chain_backend/src/appointments/service.py:127-148 | delete keeps every invariant |
| AppointmentService.CreateChecksPatientThenDoctor | app/medi_chain_backend/src/appointments/service.py:37-55 | a missing patient gives 404 first, then a missing doctor; an error stores nothing |
| AppointmentService.CreateLinksPair | app/medi_chain_backend/src/appointments/service.py:57-78 | with both present, create succeeds, leaves exactly one active link for the pair, and stores a new row copying the inputs with status "scheduled" |
| AppointmentService.CreateAuditedIffActor | app/medi_chain_backend/src/appointments/service.py:80-89 | without an actor no audit entry is added; with one, exactly one CREATE_APPOINTMENT entry naming the new row |
| AppointmentService.PatchEmptyIsIdentity | app/medi_chain_backend/src/appointments/service.py:101-108 | an update with no fields changes nothing |
| AppointmentService.PatchIdempotent | app/medi_chain_backend/src/appointments/service.py:101-108 | applying an update twice is applying it once |
| AppointmentService.MissingAppointmentChangesNothing | app/medi_chain_backend/src/appointments/service.py:94-98 | update and delete of an unknown id give 404 and change nothing |
| AppointmentService.DeleteRemoves | app/medi_chain_backend/src/appointments/service.py:127-148 | delete removes exactly that row; with an actor it logs DELETE_APPOINTMENT for that id; a second delete gives 404 |
| ConsentService.ApplyStatus | app/medi_chain_backend/src/consents/service.py:82-90 | "granted" stamps granted_at and clears revoked_at; "revoked" stamps revoked_at and keeps granted_at; any other status changes only the status; none changes nothing |
| ConsentService.GetConsentById | app/medi_chain_backend/src/consents/service.py:14-17 | finds a row exactly when the id is stored, and returns that row |
| ConsentService.GetConsentsByPatient | app/medi_chain_backend/src/consents/service.py:19-23 | returns exactly the patient's consents, each once |
| ConsentService.GetConsentsByDoctor | app/medi_chain_backend/src/consents/service.py:25-29 | returns exactly the doctor's consents, each once |
| ConsentService.CreateConsent | app/medi_chain_backend/src/consents/service.py:31-72 | the result and the tables are as Create says; the invariants are kept |
| ConsentService.UpdateConsent | app/medi_chain_backend/src/consents/service.py:74-95 | the result and the tables are as Update says; the invariants are kept |
| ConsentService.DeleteConsent | app/medi_chain_backend/src/consents/service.py:97-106 | the result and the tables are as Delete says; the invariants are kept |
| ConsentService.CreateChecksInOrder | app/medi_chain_backend/src/consents/service.py:31-63 | 404 for a missing patient first, then for a missing doctor, then 400 for any existing consent of the pair whatever its status; errors change nothing |
| ConsentService.CreatedIsPendingAndOnly | app/medi_chain_backend/src/consents/service.py:52-72 | a new consent is pending with no stamps, is the pair's only consent, and a second create gives 400 |
| ConsentService.CreateKeepsValid | app/medi_chain_backend/src/consents/service.py:31-72 | create keeps every invariant |
| ConsentService.UpdateKeepsValid | app/medi_chain_backend/src/consents/service.py:74-95 | update keeps every invariant |
| ConsentService.DeleteKeepsValid | app/medi_chain_backend/src/consents/service.py:97-106 | delete keeps every invariant |
| ConsentService.GrantThenRevoke | app/medi_chain_backend/src/consents/service.py:86-90 | grant then revoke keeps the grant stamp and adds the revoke stamp |
| ConsentService.RevokeThenGrant | app/medi_chain_backend/src/consents/service.py:86-90 | revoke then grant clears the revoke stamp |
| ConsentService.StampsFollowLastChange | app/medi_chain_backend/src/consents/service.py:82-90 | a consent granted by the last change has no revoke stamp; a revoke stamp survives every change except a grant |
| ConsentService.UpdateRepeat | app/medi_chain_backend/src/consents/service.py:82-90 | no status changes nothing; a repeated grant only moves the stamp |
| ConsentService.DeleteThenMissing | app/medi_chain_backend/src/consents/service.py:97-106 | delete removes exactly that row; then update and delete give 404 |
| LabReportService.Patch | app/medi_chain_backend/src/lab_reports/service.py:71-75 | only a non-None file_url or report_type replaces the row's |
| LabReportService.GetLabReportById | app/medi_chain_backend/src/lab_reports/service.py:13-16 | finds a row exactly when the id is stored, and returns that row |
| LabReportService.GetLabReportsByPatient | app/medi_chain_backend/src/lab_reports/service.py:18-22 | returns exactly the patient's reports, each once |
| LabReportService.GetLabReportsByDoctor | app/medi_chain_backend/src/lab_reports/service.py:24-28 | returns exactly the reports naming that doctor, each once |
| LabReportService.CreateLabReport | app/medi_chain_backend/src/lab_reports/service.py:30-62 | the result and the tables are as Create says; the invariants are kept |
| LabReportService.UpdateLabReport | app/medi_chain_backend/src/lab_reports/service.py:64-80 | the result and the tables are as Update says; the invariants are kept |
| LabReportService.DeleteLabReport | app/medi_chain_backend/src/lab_reports/service.py:82-91 | the result and the tables are as Delete says; the invariants are kept |
| LabReportService.CreateChecks | app/medi_chain_backend/src/lab_reports/service.py:31-51 | 404 for a missing patient first; the doctor is checked only when one is named; errors change nothing |
| LabReportService.CreateStoresReport | app/medi_chain_backend/src/lab_reports/service.py:53-62 | a new report under a fresh id copies the request; no other table changes, so there is no link and no audit entry |
| LabReportService.PatchEmptyIsIdentity | app/medi_chain_backend/src/lab_reports/service.py:71-75 | an update with no fields changes nothing |
| LabReportService.PatchIdempotent | app/medi_chain_backend/src/lab_reports/service.py:71-75 | applying an update twice is applying it once |
| LabReportService.CreateKeepsValid | app/medi_chain_backend/src/lab_reports/service.py:30-62 | create keeps every invariant |
| LabReportService.UpdateKeepsValid | app/medi_chain_backend/src/lab_reports/service.py:64-80 | update keeps every invariant |
| LabReportService.DeleteKeepsValid | app/medi_chain_backend/src/lab_reports/service.py:82-91 | delete keeps every invariant |
| LabReportService.DeleteThenMissing | app/medi_chain_backend/src/lab_reports/service.py:82-91 | delete removes exactly that row; then update and delete give 404 |
| AuditLogService.GetAuditLogById | app/medi_chain_backend/src/audit_logs/service.py:11-14 | finds an entry exactly when the id is stored, and returns that entry |
| AuditLogService.GetAuditLogsByActor | app/medi_chain_backend/src/audit_logs/service.py:16-20 | returns exactly the actor's entries, each once |
| AuditLogService.GetAuditLogsByAction | app/medi_chain_backend/src/audit_logs/service.py:22-26 | returns exactly the entries with that action, each once |
| AuditLogService.CreateAuditLog | app/medi_chain_backend/src/audit_logs/service.py:28-39 | the result and the tables are as Create says; the invariants are kept |
| AuditLogService.Record | app/medi_chain_backend/src/prescriptions/service.py:116-125 | a service's audit step leaves the tables as Recorded says |
| AuditLogService.DeleteAuditLog | app/medi_chain_backend/src/audit_logs/service.py:41-50 | the result and the tables are as Delete says; the invariants are kept |
| AuditLogService.LoggedKeepsValid | app/medi_chain_backend/src/audit_logs/service.py:28-39 | adding an entry keeps every invariant, under an id no entry had |
| AuditLogService.RecordedKeepsValid | app/medi_chain_backend/src/prescriptions/service.py:80-89 | the audit step keeps every invariant |
| AuditLogService.RecordedAddsOneEntryIffActor | app/medi_chain_backend/src/prescriptions/service.py:80-89 | with an actor exactly one entry naming actor, action and target is added; without one nothing changes; no other table is touched |
| AuditLogService.DeleteKeepsValid | app/medi_chain_backend/src/audit_logs/service.py:41-50 | delete keeps every invariant |
| AuditLogService.CreateThenDelete | app/medi_chain_backend/src/audit_logs/service.py:28-50 | a created entry can be deleted once, restoring the entries; a second delete gives 404 |
| PatientService.GetPatientByEmail | app/medi_chain_backend/src/patients/service.py:9-12 | none exactly when no patient has the email; otherwise the stored patient with it |
| PatientService.PatientExistsByEmail | app/medi_chain_backend/src/patients/service.py:14-16 | true exactly when some patient has the email |
| PatientService.RegisterPatient | app/medi_chain_backend/src/patients/service.py:18-37 | the result and the tables are as Register says; the invariants are kept |
| PatientService.AuthenticatePatient | app/medi_chain_backend/src/patients/service.py:39-45 | the result is Authenticate's |
| PatientService.EmailNamesOnePatient | app/medi_chain_backend/src/patients/models.py:12 | an email names at most one patient |
| PatientService.RegisterKeepsValid | app/medi_chain_backend/src/patients/service.py:18-37 | registration keeps every invariant, emails unique included |
| PatientService.RegisterStoresHash | app/medi_chain_backend/src/patients/service.py:18-33 | 400 "Patient already exists" iff the email is taken, changing nothing; otherwise a new row under a fresh id storing hash(password) |
| PatientService.RegisterTwiceRefused | app/medi_chain_backend/src/patients/service.py:19-22 | registering the same email again gives 400 and changes nothing |
| PatientService.RegisterThenAuthenticate | app/medi_chain_backend/src/patients/service.py:39-45 | a registered patient authenticates with their password and gets their own row |
| PatientService.AuthenticationFailureIsUniform | app/medi_chain_backend/src/patients/service.py:39-44 | an unknown email and a wrong password give the same 403; with the email present, success holds iff the password verifies |
| DoctorService.GetDoctorByEmail | app/medi_chain_backend/src/doctors/service.py:9-12 | none exactly when no doctor has the email; otherwise the stored doctor with it |
| DoctorService.DoctorExistsByEmail | app/medi_chain_backend/src/doctors/service.py:14-16 | true exactly when some doctor has the email |
| DoctorService.RegisterDoctor | app/medi_chain_backend/src/doctors/service.py:18-36 | the result and the tables are as Register says; the invariants are kept |
| DoctorService.AuthenticateDoctor | app/medi_chain_backend/src/doctors/service.py:38-44 | the result is Authenticate's |
| DoctorService.EmailNamesOneDoctor | app/medi_chain_backend/src/doctors/models.py:12 | an email names at most one doctor |
| DoctorService.RegisterKeepsValid | app/medi_chain_backend/src/doctors/service.py:18-36 | registration keeps every invariant, emails unique included |
| DoctorService.RegisterStoresHash | app/medi_chain_backend/src/doctors/service.py:18-32 | 400 "Doctor already exists" iff the email is taken, changing nothing; otherwise a new row under a fresh id storing hash(password) |
| DoctorService.RegisterTwiceRefused | app/medi_chain_backend/src/doctors/service.py:19-22 | registering the same email again gives 400 and changes nothing |
| DoctorService.RegisterThenAuthenticate | app/medi_chain_backend/src/doctors/service.py:38-44 | a registered doctor authenticates with their password and gets their own row |
| DoctorService.AuthenticationFailureIsUniform | app/medi_chain_backend/src/doctors/service.py:38-43 | an unknown email and a wrong password give the same 403; with the email present, success holds iff the password verifies |
| LegacyDoctorAuth.DoctorTable.constructor | app/auth_doctor_patient/src/Doctor_auth/models.py:6-17 | the table starts empty, satisfying its invariants |
| LegacyDoctorAuth.GetDoctorByEmail | app/auth_doctor_patient/src/Doctor_auth/service.py:9-12 | none exactly when no doctor has the email; otherwise the only doctor with it |
| LegacyDoctorAuth.DoctorExistsByEmail | app/auth_doctor_patient/src/Doctor_auth/service.py:14-16 | true exactly when the email lookup finds a row |
| LegacyDoctorAuth.RegisterDoctor | app/auth_doctor_patient/src/Doctor_auth/service.py:18-37 | the result and the table are as Register says; the invariants are kept |
| LegacyDoctorAuth.AuthenticateDoctor | app/auth_doctor_patient/src/Doctor_auth/service.py:39-45 | the result is Authenticate's |
| LegacyDoctorAuth.EmailNamesOne | app/auth_doctor_patient/src/Doctor_auth/models.py:15 | a stored email names exactly one doctor |
| LegacyDoctorAuth.RegisterKeepsValid | app/auth_doctor_patient/src/Doctor_auth/models.py:13-15 | registration keeps emails and license numbers unique |
| LegacyDoctorAuth.RegisterOutcomes | app/auth_doctor_patient/src/Doctor_auth/service.py:18-37 | 400 iff the email is taken; otherwise the unique-license violation iff the license is taken; errors change nothing; success stores hash(password) and copies the input fields under a fresh uid |
| LegacyDoctorAuth.RegisterThenAuthenticate | app/auth_doctor_patient/src/Doctor_auth/service.py:39-45 | a registered doctor authenticates with their password and gets their own row |
| LegacyDoctorAuth.AuthenticationFailureIsUniform | app/auth_doctor_patient/src/Doctor_auth/service.py:39-44 | an unknown email and a wrong password give the same 403; with the email present, success holds iff the password verifies |
| TokenBearer.VerifyTokenData | app/auth_doctor_patient/src/Doctor_auth/dependencies.py:29-48 | the base class always raises NotImplementedError. Empty claims pass. Claims without "refresh" raise KeyError. No check ever accepts by itself |
| TokenBearer.Call | app/auth_doctor_patient/src/Doctor_auth/dependencies.py:12-24 | a token that decodes to None gives 403 "Invalid or expired token" before any kind check, and a decode exception propagates. A token is accepted iff it decodes and the kind check passes; the payload is then returned unchanged |
| TokenBearer.TokenValid | app/auth_doctor_patient/src/Doctor_auth/dependencies.py:26-27 | true exactly when the token decodes |
| TokenBearer.BaseAcceptsNothing | app/auth_doctor_patient/src/Doctor_auth/dependencies.py:29-30 | the base bearer accepts no token |
| TokenBearer.UndecodableRefusedByAll | app/auth_doctor_patient/src/Doctor_auth/dependencies.py:14-21 | an undecodable token gets the same 403 from every bearer |
| TokenBearer.ExactlyOneBearerAccepts | app/auth_doctor_patient/src/Doctor_auth/dependencies.py:33-48 | a token with a "refresh" claim is accepted by exactly one bearer, and refused by the other with its own 403 |
| TokenBearer.IssuedTokenPassesItsBearer | app/auth_doctor_patient/src/Doctor_auth/utils.py:37-51 | a token issued with refresh set to true or false passes exactly its own bearer |
| TokenBearer.ClaimsWithoutRefresh | app/auth_doctor_patient/src/Doctor_auth/dependencies.py:35-48 | with no "refresh" claim both bearers accept an empty payload, and both raise KeyError for any other payload |

## Left out

**Browser and runtime**
- sending a request, toasts, navigation, `console` output and React rendering: these are recorded as effects or dropped.
- `setTimeout` delays: the delayed callback of each page handler is taken to have run at once.
- the intermediate UI state: `loading` while a request is awaited; two overlapping submissions of a list handler.
- `Date` and ISO conversion, `parseInt` and the form reads: their results are parameters.
- when the protected route's check runs: the decision is modelled as one call per mount (src/components/ProtectedRoute.tsx:13-41). Rendering the children is not modelled.
- Numbers are unbounded integers on both sides: JavaScript floating-point values, `NaN` and Python `float` claims in a decoded token are not modelled (`Js.Json.JNum`, `TokenBearer.PyValue.PyInt`), so a fractional number in a response or a claim has no counterpart.
- JavaScript `String()` of a token read from a response: `Js.Coerce` gives what `String()` gives for every modelled JSON value. That is "undefined" for a missing field, "[object Object]" for an object, and the comma-joined element texts for an array. The only gap is the number gap listed above.

**Foreign libraries**
- PyJWT, argon2 and `uuid`: decoding, hashing and password verification are parameters, and ids come from a counter.
- `decode_token` at app/auth_doctor_patient/src/Doctor_auth/utils.py:60: it catches only `PyJWKError`. Other decode errors therefore propagate as exceptions; the model carries them as `Raised`.
- `str(uuid.uuid4)` at utils.py:45: it stringifies the function itself. The token id is not used by any modelled rule.
- `TokenBearer.Call` decodes the token once, although `__call__` decodes it twice: `decode` is a parameter, so both calls give the same result.
- A missing or malformed `Authorization` header: the parent `HTTPBearer` rejects it with "Not authenticated" before `__call__` runs, and this is not modelled.

**Back end**
- Records use pydantic and SQLModel validation (`EmailStr`, lengths, `min_length`) and their defaults. The model keeps only the defaults the services rely on: "primary_care", "scheduled", "pending".
- Async sessions, `commit`/`refresh`, transactions and concurrent requests: one service call is one atomic step.
- Route files and `main.py` are not part of this model. `app/medi_chain_backend/src/patients/routes.py:124` calls a `delete_patient` that the service does not define. There is no doctor `delete-account` route, so `DoctorProfile.DeleteRequest` models only what the page sends.
- The doctor signup payload's `medical_license_number` is not a field of the main back end's doctor record, so it is dropped there.
- The legacy app's `DoctorAuthService.register_doctor`: a duplicate license number fails on the unique constraint at commit. It is modelled as the distinct error `UniqueViolation("medical_license_number")`, not as an HTTP status.

**Weaker contracts**
- PatientSidebar.NameFromStorage: its contract pins down only the default cases; the displayed `full_name` is stated by `PatientSidebar.NameIsStoredFullName`, for a profile object.
- DoctorProfile.DeleteFailureMessage: its contract states only the transport-failure case; the `detail` and fallback cases are stated by `DoctorProfile.DetailShown` and the body.
- PatientRegister.ErrorText: its contract states only the case with a message; the fallback order is stated by `PatientRegister.ErrorTextForClientErrors` and `PatientRegister.PageNetworkBranchUnreachable`.
