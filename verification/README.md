# Stress monitoring app: a Dafny model

The system is a patient-monitoring app with two parts.

- An Android client. It reads heart rate, SpO2 and HRV from Health Connect and syncs them to Firestore. It runs an on-device stress analyzer over the patient's readings and shows a stress-alert dialog. It also gives nurses a home screen with one card per patient.
- A Firebase Functions back end (an Express app). It handles registration and login and reads and writes patients' vital readings and stress alerts. It also runs the QR pairing flow between a nurse and a patient.

The model expresses each part of the core as pure functions over immutable datatypes. Each coroutine body or route handler is one function from the state it reads, plus the outcomes of the external calls it makes, to the state it leaves and the response it returns.

| module | file | models |
|---|---|---|
| `Common` | common.dfy | options and results, Kotlin `isBlank`, division truncating toward zero, decimal printing of integers |
| `Sorting` | sorting.dfy | a stable sort by an integer key, and the key classes used to state stability |
| `DomainModel` | domain_model.dfy | `VitalReading`, `StressAlert`, users and profiles |
| `StressAnalysis` | stress_analyzer.dfy | `StressAnalyzer.evaluate` as a state transition, and runs of it |
| `StressAnalyzerObject` | stress_analyzer.dfy | the analyzer as one mutable object |
| `StressAlertHandling`, `StressAlertHandlerObject` | stress_alert_handler.dfy | the alert handler's notify-and-publish behaviour |
| `HealthConnect` | health_connect.dfy | permissions, availability, and merging the three record kinds into per-second readings |
| `PatientHome` | patient_home.dfy | the patient home screen's state holder |
| `NurseHome` | nurse_home.dfy | the nurse home screen's cards and summary |
| `VitalsSync` | vitals_sync.dfy | enriching readings and the batched Firestore upsert |
| `JsValues` | js_values.dfy | JavaScript values, truthiness, `||`, `includes`, `parseInt` |
| `BackendCommon` | backend_common.dfy | collections, responses, `verifyToken`, the nurse-to-patient access check |
| `AuthRoutes` | backend_auth.dfy | `POST /auth/register`, `POST /auth/login` |
| `PatientRoutes` | backend_patients.dfy | `GET /patients/:id`, `GET /nurses/:id/patients`, `POST /patients/search`, `POST /pill/identify` |
| `DataRoutes` | backend_vitals.dfy | `POST`/`GET /patients/:id/vitals` and `POST`/`GET /patients/:id/alerts` |
| `QrSessions` | qr_sessions.dfy | `POST /nurse/session` and `POST /nurse/session/resolve` |

Several things that are I/O in the source are parameters of the model:
- the wall clock (`now`);
- random ids (`alertId`, `newId`, the QR `token`);
- the signed-in user;
- the notifier's outcome;
- the Health Connect probe;
- the outcomes of Firebase Auth (`CreateOutcome`, `TokenOutcome`, `SignInOutcome`, and the token verifier `verify`);
- the batch-commit outcome.

A Firestore collection is a sequence of documents in document-id order. A query's result is a function of that sequence.

Two behaviours of the analyzer are worth knowing:
- When an above-threshold period restarts after a dip, it begins at the oldest sample still in the moving-average window, and that sample may predate the dip (StressAnalyzer.kt:39-42, `StressAnalysis.TrackingStart`). The restarted period therefore need not reach the minimum duration on its own.
- The analyzer's unit test expects an alert at 1500 ms from a new analyzer with a 5000 ms cooldown. The code cannot produce it, because the last-alert time starts at 0. `StressAnalysis.FirstAlertAfterCooldown` proves that no alert from a new analyzer has a timestamp below the cooldown.

## Model

| member | source | states |
|---|---|---|
| StressAnalysis.Evict | app/src/main/java/com/example/bigproject/core/domain/stress/StressAnalyzer.kt:31-34 | The window keeps the newest `movingAverageWindow` samples, in order. A negative window size makes the eviction loop throw on the empty deque. |
| StressAnalysis.Average | app/src/main/java/com/example/bigproject/core/domain/stress/StressAnalyzer.kt:36 | The average is the mean of the window's stress levels truncated toward zero (`toInt()`). An empty window averages to 0. |
| StressAnalysis.Clamp | app/src/main/java/com/example/bigproject/core/domain/stress/StressAnalyzer.kt:47 | The severity lies in 0..100. It equals the average when the average is already in range and the nearer bound otherwise. |
| StressAnalysis.Evaluate | app/src/main/java/com/example/bigproject/core/domain/stress/StressAnalyzer.kt:28-61 | <ul><li>A blank patient id is a no-op.</li><li>The window becomes the newest samples and ends with this reading.</li><li>An average below the threshold never alerts and cancels tracking.</li><li>At or above the threshold, an alert is raised iff the period has lasted `minDurationMs` and `cooldownMs` has passed since the last alert.</li><li>An alert has the clamped severity and the message, stores its time as the last-alert time, and resets tracking.</li></ul> |
| StressAnalysis.GateStep | app/src/main/java/com/example/bigproject/core/domain/stress/StressAnalyzer.kt:42-55 | One call either leaves the last-alert time unchanged, or emits an alert stamped with the new last-alert time, at least `cooldownMs` after the previous one. |
| StressAnalysis.RunStep | app/src/main/java/com/example/bigproject/core/domain/stress/StressAnalyzer.kt:42-55 | One more call on a run either adds no alert or appends one alert that obeys the cooldown gate. |
| StressAnalysis.CooldownSpacing | app/src/main/java/com/example/bigproject/core/domain/stress/StressAnalyzer.kt:42-55 | Over any sequence of calls: <ul><li>consecutive alerts are at least `cooldownMs` apart;</li><li>the first alert is `cooldownMs` past the initial last-alert time;</li><li>the last alert's time is the stored one.</li></ul> |
| StressAnalysis.PairwiseCooldown | app/src/main/java/com/example/bigproject/core/domain/stress/StressAnalyzer.kt:42-55 | With a non-negative cooldown, any two alerts of one analyzer are at least `cooldownMs` apart. No alert is later than the stored last-alert time. |
| StressAnalysis.FirstAlertAfterCooldown | app/src/main/java/com/example/bigproject/core/domain/stress/StressAnalyzer.kt:24-26 | From a new analyzer, whose last-alert time is 0, every alert's timestamp is at least `cooldownMs`. |
| StressAnalysis.SumBelow | app/src/main/java/com/example/bigproject/core/domain/stress/StressAnalyzer.kt:36 | A window whose levels are all below the threshold sums to at most `size * (threshold - 1)`. |
| StressAnalysis.AverageBelow | app/src/main/java/com/example/bigproject/core/domain/stress/StressAnalyzer.kt:36-38 | The truncated mean of a non-empty window of below-threshold levels is below the threshold. |
| StressAnalysis.LowStreamNeverAlerts | app/src/main/java/com/example/bigproject/core/domain/stress/StressAnalyzer.kt:36-59 | With a positive window size, a stream of below-threshold readings never alerts. The window stays below the threshold. |
| StressAnalysis.LowCallQuiet | app/src/main/java/com/example/bigproject/core/domain/stress/StressAnalyzer.kt:36-59 | With a positive window size, one below-threshold reading on a below-threshold window raises no alert. The window stays below the threshold. |
| StressAnalysis.ColdStart | app/src/main/java/com/example/bigproject/core/domain/stress/StressAnalyzer.kt:39-44 | <ul><li>The first reading on a new analyzer starts tracking at its own timestamp.</li><li>It cannot alert when `minDurationMs` is positive.</li><li>With a positive window size, its average is its own stress level.</li></ul> |
| StressAlertHandling.Handle | app/src/main/java/com/example/bigproject/feature/dashboard/stress/StressAlertHandler.kt:15-23 | Handling an alert publishes it as the latest alert. |
| StressAlertHandling.Clear | app/src/main/java/com/example/bigproject/feature/dashboard/stress/StressAlertHandler.kt:25-27 | After clearing, no alert is published. |
| StressAlertHandling.NotifierFailureSwallowed | app/src/main/java/com/example/bigproject/feature/dashboard/stress/StressAlertHandler.kt:17-21 | A notifier that throws leaves the same state as one that shows the notification. |
| StressAlertHandling.ApplyPublishesLast | app/src/main/java/com/example/bigproject/feature/dashboard/stress/StressAlertHandler.kt:12-27 | After any sequence of handle and clear calls, the published value is the last handled alert if no clear followed it, and otherwise none. |
| HealthConnect.PermissionSets | app/src/main/java/com/example/bigproject/data/healthconnect/HealthConnectManager.kt:34-42 | The app requests heart rate, SpO2 and HRV. The required set (heart rate, SpO2) is part of it and disjoint from the optional one (HRV). |
| HealthConnect.HasRequiredPermissions | app/src/main/java/com/example/bigproject/data/healthconnect/HealthConnectManager.kt:83-93 | True iff both heart-rate and SpO2 read permissions are granted. |
| HealthConnect.OptionalPermissionIrrelevant | app/src/main/java/com/example/bigproject/data/healthconnect/HealthConnectManager.kt:83-93 | Granting or revoking HRV or any unrelated permission never changes the answer. |
| HealthConnect.GetAvailability | app/src/main/java/com/example/bigproject/data/healthconnect/HealthConnectManager.kt:56-81 | <ul><li>SDK available: installed-and-available iff the required permissions are granted, otherwise permissions-not-granted.</li><li>Provider update required: not installed, in both directions.</li><li>Every other status: not supported.</li></ul> |
| HealthConnect.MergeOne | app/src/main/java/com/example/bigproject/data/healthconnect/HealthConnectManager.kt:138-176 | <ul><li>A record fills its second if that second is empty.</li><li>Otherwise it overwrites only its own measurement and replaces the source only when the stored source is "Unknown".</li><li>Every other second is untouched, and the map stays well formed.</li></ul> |
| HealthConnect.MergeAll | app/src/main/java/com/example/bigproject/data/healthconnect/HealthConnectManager.kt:138-176 | A pass over records of one kind adds exactly their seconds to the map and keeps it well formed. |
| HealthConnect.Values | app/src/main/java/com/example/bigproject/data/healthconnect/HealthConnectManager.kt:178 | The map's values, one per key, in insertion order. |
| HealthConnect.MergeRecords | app/src/main/java/com/example/bigproject/data/healthconnect/HealthConnectManager.kt:134-176 | The three passes cover exactly the seconds of all input records. |
| HealthConnect.Combine | app/src/main/java/com/example/bigproject/data/healthconnect/HealthConnectManager.kt:129-179 | <ul><li>One reading per second that occurs in any input, and no other.</li><li>No two readings share a second.</li><li>Readings are in strictly descending timestamp order.</li></ul> |
| HealthConnect.ValuesCoverMap | app/src/main/java/com/example/bigproject/data/healthconnect/HealthConnectManager.kt:178 | The values of the merged map cover exactly its seconds, each once. |
| HealthConnect.SortedReadings | app/src/main/java/com/example/bigproject/data/healthconnect/HealthConnectManager.kt:178 | Sorting per-second readings by descending timestamp keeps their seconds distinct and makes the order strict. |
| HealthConnect.LastIn | app/src/main/java/com/example/bigproject/data/healthconnect/HealthConnectManager.kt:138-176 | The last record of a list that falls in a given second, if any. |
| HealthConnect.MergeAllLastWins | app/src/main/java/com/example/bigproject/data/healthconnect/HealthConnectManager.kt:138-176 | Within one pass, the last record of each second supplies that second's measurement. A second the pass does not touch is unchanged. |
| HealthConnect.MergeAllPreserves | app/src/main/java/com/example/bigproject/data/healthconnect/HealthConnectManager.kt:153-176 | A later pass keeps every existing second's identity and its other measurements. |
| HealthConnect.CombineLastWins | app/src/main/java/com/example/bigproject/data/healthconnect/HealthConnectManager.kt:129-179 | Each combined reading carries, for each record kind, the measurement of the last record of that kind in its second. |
| HealthConnect.CombinedFromMap | app/src/main/java/com/example/bigproject/data/healthconnect/HealthConnectManager.kt:178 | Each returned reading is the map's reading at its own second. |
| HealthConnect.PassesLastWins | app/src/main/java/com/example/bigproject/data/healthconnect/HealthConnectManager.kt:134-176 | After the three passes, the reading at a second carries each kind's measurement from the last record of that kind in that second. |
| PatientHome.Classify | app/src/main/java/com/example/bigproject/feature/dashboard/ui/patient/PatientHomeViewModel.kt:91-95 | Calm iff 0..40. Elevated iff 41..70. High iff negative or above 70. |
| PatientHome.ClassifyMonotone | app/src/main/java/com/example/bigproject/feature/dashboard/ui/patient/PatientHomeViewModel.kt:91-95 | On non-negative values the gauge never goes down as stress rises. |
| PatientHome.ClassifyAgreesWithThreshold | app/src/main/java/com/example/bigproject/feature/dashboard/ui/patient/PatientHomeViewModel.kt:91-95 | A level at or above the analyzer's default threshold of 70 is never shown as calm. It is elevated only at exactly 70. |
| PatientHome.StartObservingVitals | app/src/main/java/com/example/bigproject/feature/dashboard/ui/patient/PatientHomeViewModel.kt:77-86 | Loading starts and the signed-in user's name is shown if there is a user. Nothing else on screen changes. |
| PatientHome.OnReading | app/src/main/java/com/example/bigproject/feature/dashboard/ui/patient/PatientHomeViewModel.kt:86-105 | <ul><li>The reading and its level are shown.</li><li>With a user, the analyzer runs. A raised alert reaches the handler, the dialog and the back end. No alert leaves all three untouched.</li><li>An analyzer exception ends collection with its message.</li></ul> |
| PatientHome.OnVitalsStreamError | app/src/main/java/com/example/bigproject/feature/dashboard/ui/patient/PatientHomeViewModel.kt:106-113 | A stream failure stops loading and collection. It shows the exception's message, or the fixed fallback text. |
| PatientHome.Dismiss | app/src/main/java/com/example/bigproject/feature/dashboard/ui/patient/PatientHomeViewModel.kt:136-139 | The handler is cleared and the dialog hidden. Nothing else changes. |
| PatientHome.StartBreathingExercise | app/src/main/java/com/example/bigproject/feature/dashboard/ui/patient/PatientHomeViewModel.kt:141-144 | Same effect as dismissing the dialog: the handler is acknowledged, the dialog closes, and every other field of the screen state is unchanged. |
| PatientHome.LoadAvailability | app/src/main/java/com/example/bigproject/feature/dashboard/ui/patient/PatientHomeViewModel.kt:174-195 | The check always ends. On success it shows the availability. On failure it clears the availability and shows the exception's message or the fallback text. |
| PatientHome.OnHealthPermissionsResult | app/src/main/java/com/example/bigproject/feature/dashboard/ui/patient/PatientHomeViewModel.kt:162-172 | When the re-check succeeds, the permission message is absent iff every requested permission (HRV included) was granted. When it fails, the availability is cleared and a message shown. |
| PatientHome.InitialConsistent | app/src/main/java/com/example/bigproject/feature/dashboard/ui/patient/PatientHomeViewModel.kt:65 | A newly created screen is consistent. |
| PatientHome.StepConsistent | app/src/main/java/com/example/bigproject/feature/dashboard/ui/patient/PatientHomeViewModel.kt:117-134 | Every event keeps three things true: <ul><li>the dialog shows exactly the handler's latest alert;</li><li>alerts sent to the back end are at least the cooldown apart;</li><li>the newest of them is at the analyzer's last-alert time.</li></ul> |
| PatientHome.ReadingConsistent | app/src/main/java/com/example/bigproject/feature/dashboard/ui/patient/PatientHomeViewModel.kt:117-134 | A vitals reading keeps the dialog mirroring the handler and the back-end alerts spaced by the cooldown. |
| PatientHome.RunConsistent | app/src/main/java/com/example/bigproject/feature/dashboard/ui/patient/PatientHomeViewModel.kt:117-154 | Consistency holds along any sequence of events. |
| NurseHome.Found | app/src/main/java/com/example/bigproject/feature/dashboard/ui/nurse/NurseHomeViewModel.kt:60-66 | A lookup that threw reads as nothing. Otherwise it reads as its first emission. |
| NurseHome.MaxIndex | app/src/main/java/com/example/bigproject/feature/dashboard/ui/nurse/NurseHomeViewModel.kt:65 | The position of the first alert with the largest timestamp. |
| NurseHome.LatestAlert | app/src/main/java/com/example/bigproject/feature/dashboard/ui/nurse/NurseHomeViewModel.kt:65 | None iff there are no alerts. Otherwise an alert of the list that no other alert postdates. |
| NurseHome.CardVitalsString | app/src/main/java/com/example/bigproject/feature/dashboard/ui/nurse/NurseHomeViewModel.kt:99-103 | No reading gives the placeholder. Otherwise the text is heart rate, SpO2 and stress in the fixed format. |
| NurseHome.VitalsCardDistinguishable | app/src/main/java/com/example/bigproject/feature/dashboard/ui/nurse/NurseHomeViewModel.kt:99-103 | The vitals text is the placeholder iff there is no reading. |
| NurseHome.CardAlertString | app/src/main/java/com/example/bigproject/feature/dashboard/ui/nurse/NurseHomeViewModel.kt:105-111 | No alert gives the placeholder. Otherwise the text is the message, followed by the formatted time when formatting succeeds. |
| NurseHome.AlertCardPlaceholder | app/src/main/java/com/example/bigproject/feature/dashboard/ui/nurse/NurseHomeViewModel.kt:105-114 | The alert text equals the placeholder iff there is no alert, or the alert's message is the placeholder and the time could not be formatted. |
| NurseHome.ShownAlert | app/src/main/java/com/example/bigproject/feature/dashboard/ui/nurse/NurseHomeViewModel.kt:64-66 | A shown alert is one of the patient's alerts. |
| NurseHome.CountAlertCards | app/src/main/java/com/example/bigproject/feature/dashboard/ui/nurse/NurseHomeViewModel.kt:76 | The number of cards whose alert text is not the placeholder. |
| NurseHome.Load | app/src/main/java/com/example/bigproject/feature/dashboard/ui/nurse/NurseHomeViewModel.kt:53-97 | <ul><li>Loading always ends.</li><li>A failed patient query changes only the loading flag and the error (its message or the fallback).</li><li>Otherwise: one card per patient in order, the total, and the count of alert cards.</li></ul> |
| NurseHome.CountWithAlert | app/src/main/java/com/example/bigproject/feature/dashboard/ui/nurse/NurseHomeViewModel.kt:64-76 | The number of patients who have an alert to show. |
| NurseHome.AlertCountIsPatientsWithAlert | app/src/main/java/com/example/bigproject/feature/dashboard/ui/nurse/NurseHomeViewModel.kt:76-85 | The summary's alert count is the number of patients with an alert, provided no shown alert's text collides with the placeholder. |
| NurseHome.CardCountMatches | app/src/main/java/com/example/bigproject/feature/dashboard/ui/nurse/NurseHomeViewModel.kt:76 | Counting non-placeholder cards equals counting patients with an alert, under the same proviso. |
| NurseHome.MaskedAlertNotCounted | app/src/main/java/com/example/bigproject/feature/dashboard/ui/nurse/NurseHomeViewModel.kt:76-116 | A patient whose only alert's message is the placeholder text, and whose time cannot be formatted, is not counted in the summary. |
| VitalsSync.EnrichOne | app/src/main/java/com/example/bigproject/data/VitalsRepository.kt:31-36 | The patient id is set. An empty device source becomes "HealthConnect" and a non-empty one is kept. Nothing else changes. |
| VitalsSync.Enrich | app/src/main/java/com/example/bigproject/data/VitalsRepository.kt:31-36 | Each reading is enriched, position for position. |
| VitalsSync.EnrichIdempotent | app/src/main/java/com/example/bigproject/data/VitalsRepository.kt:31-36 | Enriching twice equals enriching once. |
| VitalsSync.PatientPart | app/src/main/java/com/example/bigproject/data/firebase/FirebaseVitalsRepository.kt:30 | The patient id, or "unknown" when it is blank. |
| VitalsSync.DocumentIdInjective | app/src/main/java/com/example/bigproject/data/firebase/FirebaseVitalsRepository.kt:28-32 | Two readings get the same document id iff they have the same patient part and the same timestamp. |
| VitalsSync.NoSeparatorAfter | app/src/main/java/com/example/bigproject/data/firebase/FirebaseVitalsRepository.kt:28-32 | No `_` follows the separator in a document id, so the id splits unambiguously at its last `_`. |
| VitalsSync.BlankPatientSharesUnknown | app/src/main/java/com/example/bigproject/data/firebase/FirebaseVitalsRepository.kt:30-31 | A reading with a blank patient id shares a document with a reading of the literal patient "unknown" at the same time. |
| VitalsSync.ToMap | app/src/main/java/com/example/bigproject/data/firebase/FirebaseVitalsRepository.kt:34-41 | The document has exactly the six stored fields, and the reading's own id is not among them. |
| VitalsSync.FromMap | app/src/main/java/com/example/bigproject/data/firebase/FirebaseVitalsRepository.kt:34-41 | Reading a document back gives it the document's id. |
| VitalsSync.ToMapRoundTrip | app/src/main/java/com/example/bigproject/data/firebase/FirebaseVitalsRepository.kt:28-41 | A stored reading reads back as itself, except that its id becomes the document id. |
| VitalsSync.LastFor | app/src/main/java/com/example/bigproject/data/firebase/FirebaseVitalsRepository.kt:20-24 | The last reading of the batch aimed at a document, if any. |
| VitalsSync.WriteAllLastWins | app/src/main/java/com/example/bigproject/data/firebase/FirebaseVitalsRepository.kt:20-24 | After the batch, each targeted document holds the last reading aimed at it. Untargeted documents are unchanged. |
| VitalsSync.WriteAllKeys | app/src/main/java/com/example/bigproject/data/firebase/FirebaseVitalsRepository.kt:20-24 | The documents afterwards are the old ones plus one per targeted id. |
| VitalsSync.WriteAllIdempotent | app/src/main/java/com/example/bigproject/data/firebase/FirebaseVitalsRepository.kt:20-24 | Writing the same batch twice equals writing it once. |
| VitalsSync.SaveVitals | app/src/main/java/com/example/bigproject/data/firebase/FirebaseVitalsRepository.kt:17-26 | <ul><li>An empty list changes nothing.</li><li>A failed commit changes nothing and reports its error.</li><li>A commit adds exactly the targeted documents, each holding its last reading, and leaves the rest alone.</li></ul> |
| VitalsSync.SyncLatestVitals | app/src/main/java/com/example/bigproject/data/VitalsRepository.kt:27-40 | <ul><li>Nothing to sync changes nothing.</li><li>A failed commit of a non-empty batch is reported with its message.</li><li>A commit that succeeds adds exactly the readings' document ids.</li><li>Every document the batch writes, new or overwritten, carries the patient's id and a non-empty device source.</li><li>Every other document is unchanged.</li></ul> |
| VitalsSync.NewDocumentsAreEnriched | app/src/main/java/com/example/bigproject/data/VitalsRepository.kt:31-38 | Every document the batch targets holds an enriched reading of the patient. |
| VitalsSync.SyncTwice | app/src/main/java/com/example/bigproject/data/VitalsRepository.kt:27-40 | Syncing the same readings twice gives the same collection as syncing once. |
| JsValues.Or | functions/index.js:85 | `a \|\| b` is `a` when `a` is truthy and `b` otherwise. |
| JsValues.Get | functions/index.js:60 | A missing property reads as `undefined`. |
| JsValues.GetOr | functions/index.js:60 | A destructuring default applies exactly when the property is `undefined`. |
| JsValues.Includes | functions/index.js:317 | <ul><li>On an array, `includes` is membership.</li><li>On a string, it is substring search.</li><li>On anything else it throws.</li></ul> |
| JsValues.SubstringIncludes | functions/index.js:317 | Any id that occurs inside a string list is "included". |
| JsValues.TrimStart | functions/index.js:322-323 | Only leading white space is dropped, and all of it. |
| JsValues.DigitRun | functions/index.js:322-323 | The longest prefix of digits in the radix. |
| JsValues.ParseQuery | functions/index.js:322-323 | An absent query parameter parses to nothing (NaN). A present one parses as `parseInt`. |
| JsValues.ParseUndefined | functions/index.js:322-323 | `parseInt("undefined")` is NaN. |
| JsValues.ParseIntRoundTrip | functions/index.js:322-323 | `parseInt` reads back every printed integer unchanged. |
| JsValues.ParseUnsignedRoundTrip | functions/index.js:322-323 | Printed natural numbers read back unchanged. |
| BackendCommon.Find | functions/index.js:27-30 | A document found is in the collection under that id. Nothing found means no document has that id. |
| BackendCommon.UpTo | functions/index.js:39 | The prefix before the first separator, or all of the string if there is none. |
| BackendCommon.UpToStopsAtSeparator | functions/index.js:39 | The prefix is shorter than the string only where the separator actually occurs. |
| BackendCommon.TokenOfSimpleHeader | functions/index.js:35-39 | "Bearer " followed by one token yields exactly that token. |
| BackendCommon.VerifyToken | functions/index.js:33-50 | <ul><li>A missing header, or one without "Bearer ", gives 401 "Missing or invalid Authorization header".</li><li>A token that fails verification gives 401 "Invalid token".</li><li>Otherwise the requester is the verified uid, with the role from its user document or null.</li></ul> |
| BackendCommon.NurseListsPatient | functions/index.js:315-317 | Membership is `includes` on the nurse's `patientIds \|\| []`, whatever its type. |
| BackendCommon.PatientDataGuard | functions/index.js:310-320 | <ul><li>A request passes iff the caller is the patient, or a nurse whose list includes the patient.</li><li>A refusal is 403, or 500 when `includes` throws.</li></ul> |
| AuthRoutes.Register | functions/index.js:58-130 | <ul><li>A missing field or a bad role gives 400, with nothing created.</li><li>An email in use gives 400. Another creation failure gives 500.</li><li>A created account always gets its well-formed user document, and 200 iff the ID token was obtained.</li></ul> |
| AuthRoutes.RegisterFailureKeepsUser | functions/index.js:90-128 | A failure after account creation returns 500, but the user document stays written. |
| AuthRoutes.RegisterNormalizesPatientIds | functions/index.js:60-86 | A `patientIds` that is not an array is stored as an empty array. An array is kept. |
| AuthRoutes.Login | functions/index.js:133-190 | <ul><li>A missing email or password gives 400.</li><li>A rejected sign-in gives 400 with the provider's message or "Invalid email or password".</li><li>An unreachable provider gives 500.</li><li>A missing user document gives 404. Otherwise 200 with the token and the document.</li></ul> |
| AuthRoutes.RegisteredUserLogsIn | functions/index.js:80-181 | Once registration's document is stored, logging in with the same credentials returns the same user object that registration returned. |
| PatientRoutes.GetPatient | functions/index.js:197-225 | <ul><li>A missing patient gives 404, before any authorization.</li><li>200 iff the caller is the patient, or a nurse whose list is an array that contains the id.</li><li>An existing patient is otherwise refused with 403.</li></ul> |
| PatientRoutes.GetPatientAgreesWithGuard | functions/index.js:207-220 | For an existing patient and an array list, the profile route admits exactly whom the vitals and alerts guard admits. |
| PatientRoutes.StringListSplitsRoutes | functions/index.js:213 | When a nurse's list is a string containing the id, the vitals guard lets the nurse in but the profile route refuses with 403. |
| PatientRoutes.FetchExisting | functions/index.js:244-246 | <ul><li>Fails iff some id is not a non-empty string.</li><li>Otherwise it returns exactly the listed users' documents that exist.</li></ul> |
| PatientRoutes.GetNursePatients | functions/index.js:228-253 | <ul><li>A non-nurse gives 403. So does another nurse's id.</li><li>A missing nurse document gives 404.</li><li>200 with the existing listed patients, or none when the list is not an array or is empty.</li></ul> |
| PatientRoutes.FirstPatientWithEmail | functions/index.js:543-547 | The first user with that email and the role Patient, if any. |
| PatientRoutes.LatestReading | functions/index.js:557-561 | One of the patient's readings with the largest timestamp, if there is any reading. |
| PatientRoutes.VitalSummary | functions/index.js:565-575 | The summary has exactly the seven listed fields, carries the document id, and maps a missing, undefined or null `bodyBattery` to null while keeping any other value. |
| PatientRoutes.SearchPatients | functions/index.js:530-595 | <ul><li>A non-nurse gives 403.</li><li>A missing email gives 400.</li><li>Otherwise 200: not found, or the first patient with that email, with their id, name and email.</li><li>`latestVital` is null iff the patient has no reading, and otherwise the summary of their latest reading.</li></ul> |
| PatientRoutes.IdentifyPill | functions/index.js:421-451 | <ul><li>400 iff imprint, color, shape and image are all falsy.</li><li>Otherwise 200 with the candidate list, each truthy identifier echoed, and the defaults "N/A" for the imprint, "Unknown" for color and shape, and null for the image.</li></ul> |
| DataRoutes.PostVitals | functions/index.js:260-301 | <ul><li>403 iff the caller is neither the patient nor a nurse.</li><li>200 iff additionally all four measurements are truthy.</li><li>Then exactly one reading is written, with its id, the patient, the time and the given fields.</li></ul> |
| DataRoutes.NurseWritesWithoutMembership | functions/index.js:266-276 | A nurse who does not list the patient may post that patient's vitals but may not read them. |
| DataRoutes.ZeroMeasurementRefused | functions/index.js:279 | A measurement of 0 is refused as missing. |
| DataRoutes.FromBound | functions/index.js:322 | `parseInt(from) \|\| 0`: an unreadable bound is 0. |
| DataRoutes.ToBound | functions/index.js:323 | `parseInt(to) \|\| Date.now()`: an unreadable or zero bound is now. |
| DataRoutes.ToZeroMeansNow | functions/index.js:323 | An explicit `to=0` means "up to now", not the instant 0. |
| DataRoutes.Window | functions/index.js:325-329 | Exactly the patient's readings whose numeric timestamp lies in the bounds. |
| DataRoutes.RangeQuery | functions/index.js:325-333 | The selected readings, each exactly once, in ascending timestamp order. |
| DataRoutes.RangeQueryTiesInIdOrder | functions/index.js:325-331 | Readings with equal timestamps keep document-id order. |
| DataRoutes.GetVitals | functions/index.js:304-339 | The guard's refusal is returned. Otherwise 200 with the range query for the parsed bounds. |
| DataRoutes.PostedReadingIsListed | functions/index.js:283-333 | A reading posted at a time inside the bounds is listed by a later range query. |
| DataRoutes.PostAlert | functions/index.js:344-383 | <ul><li>The guard's refusal is returned.</li><li>Otherwise 200 iff the severity is present and the message truthy.</li><li>Then exactly one unacknowledged alert is written.</li></ul> |
| DataRoutes.ZeroSeverityAccepted | functions/index.js:363 | A severity of 0 is accepted. |
| DataRoutes.Matching | functions/index.js:405-407 | Exactly the patient's alerts that have a numeric timestamp. |
| DataRoutes.AlertsQuery | functions/index.js:405-411 | The patient's alerts, each exactly once, newest first. |
| DataRoutes.AlertsQueryTiesReversed | functions/index.js:405-409 | Alerts with equal timestamps are listed in reverse document-id order. |
| DataRoutes.GetAlerts | functions/index.js:387-417 | The guard's refusal is returned. Otherwise 200 with the alerts query's answer. |
| DataRoutes.FirstAlertIsNewest | functions/index.js:405-411 | If the patient has any alert, the first one listed is no older than any of them. |
| QrSessions.CreateSession | functions/index.js:454-478 | <ul><li>A non-nurse gives 403 and nothing is stored.</li><li>Otherwise a new unresolved session is stored under the token, expiring one hour after the first clock reading and created at the second, and every other session is kept.</li></ul> |
| QrSessions.ResolveSession | functions/index.js:482-527 | <ul><li>The checks in the handler's order: 400 for a missing token or patient id, 403 for a non-patient, 404 for an unknown token, 400 for a resolved session, 400 for an expired one.</li><li>A request that fails any of them changes nothing.</li><li>Otherwise the session is marked resolved with the patient id and the second clock reading, and the answer is 200 with the patient iff that patient exists, else 404.</li></ul> |
| QrSessions.SecondResolveRefused | functions/index.js:503-505 | A resolved session refuses every later resolve with 400 "QR session already resolved". |
| QrSessions.ExpiryIsInclusive | functions/index.js:464-509 | A session can be resolved at exactly its expiry time, and not one millisecond later. |
| QrSessions.ResolvedAfterExpiry | functions/index.js:507-514 | The resolution time is a second clock reading, so a session that passes the expiry check at its last millisecond can be stamped as resolved after it expired. |
| QrSessions.AnyPatientIdAccepted | functions/index.js:511-522 | Any patient can attach any existing patient id, not only their own, and receives that profile. |
| QrSessions.FailedResolveStillConsumes | functions/index.js:511-526 | A resolve that fails after the update still leaves the session resolved. |
| QrSessions.ServeWellFormed | functions/index.js:454-527 | Every request whose clock does not run backwards keeps the sessions well formed: <ul><li>each expires at most one hour after its creation time;</li><li>a session has a patient id and a resolution time iff it is resolved.</li></ul> |
| QrSessions.ServeAllWellFormed | functions/index.js:454-527 | Well-formedness holds along any sequence of such requests. |
| QrSessions.ResolvedSessionsFrozen | functions/index.js:503-515 | With fresh tokens, a resolved session never changes again. |
| Sorting.SortBy | app/src/main/java/com/example/bigproject/data/healthconnect/HealthConnectManager.kt:178 | A sorted permutation of the input. |
| Sorting.SortByStable | functions/index.js:330 | Elements with equal keys keep their relative order. |
| Common.TruncDiv | app/src/main/java/com/example/bigproject/data/healthconnect/HealthConnectManager.kt:141 | Division rounds toward zero, as Kotlin's `/` on `Long` does. |
| Common.IntToStringInjective | app/src/main/java/com/example/bigproject/data/firebase/FirebaseVitalsRepository.kt:29 | Distinct integers print differently. |
| Common.NatToStringRoundTrip | app/src/main/java/com/example/bigproject/data/firebase/FirebaseVitalsRepository.kt:29 | The digits of a printed natural number read back as that number. |

## Left out

- The UI layer: Compose screens, colours and labels, navigation, and the sync button.
- The coroutine scheduling of the screens. Each `launch` body is one atomic transition. The `latestAlert` collector in `observeStressAlerts` is folded into the transition that publishes the alert. `PatientHome.StepConsistent` states the resulting invariant: the dialog mirrors the handler.
- I/O. Firestore, Firebase Auth, Health Connect, the notifier, the clock and random ids are parameters or inputs. Logging is dropped.
- Health Connect's SDK record mapping (`HealthConnectMappers`) is not part of this model. Records enter as already-mapped `VitalRecord`s.
- Floating point. JavaScript numbers are integers or `NaN` here, so fractional values are not represented. The HRV value is a `real` with no rounding.
- `StressAnalysis.Evaluate`: Kotlin `Long`/`Int` overflow is not modelled, because integers are unbounded. The timestamp arithmetic cannot wrap for real clock values.
- The emulator branch of register and login is not modelled. The custom-token fallback for registration without an API key, and login's "API key not configured" 500, are not modelled either. `TokenOutcome` and `SignInOutcome` give what the configured path returned.
- `AuthRoutes.Register`: a failing Firestore `set` after the account was created is not modelled. The model always writes the user document once the account exists.
- `getUserDocByUid` failures inside `verifyToken`. A read that throws would also give 401; the model has reads that succeed.
- JSON serialisation drops `undefined` fields. The model keeps them as `Undefined` values in the response objects.
- Firestore's ordering across value types is not modelled. The range and alerts queries select only documents with numeric timestamps. `DataRoutes.AlertsQuery` assumes that documents with equal timestamps come in document-id order, reversed for a descending order.
- Document ids containing `/` are not modelled. Firestore would treat them as paths.
- `parseInt` of a repeated query parameter, which arrives as an array, is not modelled. Query parameters are single strings or absent.
- functions/index.js defines no alert fan-out or messaging route, so none is modelled.
- `PatientHome.OnReading`: the back-end call's outcome cannot be observed, because a failure is only logged. Each attempt is recorded in `backendAlerts` whatever its outcome.
- `QrSessions.ServeWellFormed`: the bound between creation and expiry assumes that the clock does not run backwards between a handler's two readings; a clock stepped back could store a session created after it expires.
- The class wrappers `StressAnalyzerObject.StressAnalyzer` and `StressAlertHandlerObject.StressAlertHandler` restate the pure transitions as mutable objects. Their contracts relate `old` and new state, so they are not rows of the table above.
