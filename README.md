# Result system: scoring, guarded save, post-save signals and permissions

A Dafny model of the core of a university result system written with Django and Django REST
Framework. A lecturer records marks per student. Each student has four continuous-assessment
(CA) slots and an exam mark. The system derives a total score and a letter grade, and validates
every assessment against the enrollment register and the database constraints before storing it.

The model covers three pieces:

- **Scoring and the guarded save** (`scoring.dfy`, `models.dfy`). `Scoring.Derive` computes what
  `Assessment.save` assigns to `total_score` and `grade`. Every decimal is an exact count of
  hundredths (12.34 is 1234). `Models.FullClean` holds the checks that `full_clean` runs: the
  field bounds, the enrollment check in `clean`, and the uniqueness of `(result, student)`.
  It returns the set of errors it collects. `Models.Database` is the store: enrollments,
  results, assessments and auto-increment counters. `Valid()` is its invariant and states the
  database's unique indexes and foreign keys. `Models.Assessment` is the in-memory instance, and
  its `Save` method rescores the instance, validates it, and writes the row only when no error
  was raised. The five `Result.status` values are data only (`Models.Status`).
- **Post-save signals** (`signals.dfy`). `Signals.SaveResult` is `Result.save`: the write,
  then the receiver that bulk-creates one blank assessment per enrollment row of the course,
  but only when the save created the row. `Signals.BuildChanges` is the loop that turns a
  modification log's `old_data`/`new_data` into the ordered change list for the lecturer's
  e-mail. `PyText` (`pytext.dfy`) models the `str.replace` and `str.title` calls used for the
  fallback display names.
- **Permission classes** (`permissions.dfy`). `Permissions.HasPermission` dispatches over the
  classes `HasRole`, `IsAdminOrReadOnly`, `IsFRO`, `IsCO` and `IsDRO`. Each class value carries
  its `required_roles`, so the lemmas can show which decisions ignore it.

Some behaviour the code's own shape suggests is absent, and the model follows what the code does:

- A stored total can reach 140.00, not 100. The CA-sum cap of 40 in `clean` is commented out
  (result_system/models.py:176-184; `Models.CaSumCapNotEnforced`).
- Assessments created by the fan-out have a null grade, not "IC". Only `save` assigns IC
  (result_system/models.py:218-220), and `bulk_create` does not call `save` (`Signals.FanOutRows`).
- The status choices exist (result_system/models.py:93-99), but no code in the core moves a result
  between them, and no code requires a modification reason.

The store enforces the unique indexes that Django creates from `unique_together` and from
the one-to-one `Result.course`. A raw insert that would break one of them is refused as a whole
(IntegrityError). For this reason, if a student has two enrollment rows in a course, that
course's fan-out is refused. The Result row stays stored, because the source opens no
transaction around `Result.save`.

## Model

| member | source | states |
|---|---|---|
| Scoring.Grade.Code | result_system/models.py:202-220 | each of the nine grade codes is one or two characters long, so it fits `max_length=2` |
| Scoring.GradeFor | result_system/models.py:202-217 | a present total always gets a letter grade, never IC |
| Scoring.Derive | result_system/models.py:193-220 | a total exists exactly when the exam mark does; the grade is IC exactly when the exam mark is missing, and otherwise it is the letter of the total |
| Scoring.NoExamMeansIncomplete | result_system/models.py:193-220 | without an exam mark the total is null and the grade is IC, and the CA slots make no difference |
| Scoring.TotalIsSumOfPresentMarks | result_system/models.py:193-200 | with an exam mark, the total is the exact sum of the exam mark and the CA slots that hold a value (a missing slot adds 0) |
| Scoring.GradeIsBandOfTotal | result_system/models.py:202-217 | a total gets letter g exactly when it lies in g's band, whose floor is inclusive, checked top-down (80 A, 75 B+, 70 B, 65 C+, 60 C, 55 D+, 50 D, below that E) |
| Scoring.GradeBoundaries | result_system/models.py:202-217 | 80.00 gives A, 79.99 gives B+, 75.00 gives B+, 74.99 gives B, 50.00 gives D and 49.99 gives E |
| Scoring.GradeMonotone | result_system/models.py:202-217 | a higher total never gets a lower letter |
| Scoring.EveryLetterReachable | result_system/models.py:202-217 | every letter is reached at its floor, so no branch of the chain is dead |
| Scoring.GradeCodeFits | result_system/models.py:168 | every derived grade is one of A, B+, B, C+, C, D+, D, E, IC and fits the two-character column |
| Scoring.CodeInjective | result_system/models.py:203-220 | distinct grades are stored as distinct codes |
| PyText.Replace | result_system/signals.py:59 | `replace('_', ' ')` keeps the length and changes exactly the underscores |
| PyText.TitleFrom | result_system/signals.py:59 | the one-pass `title` scanner keeps the length, treats the first character by its incoming flag, and past it produces at each position the character that `TitleAt` gives there |
| PyText.Title | result_system/signals.py:59 | `title` keeps the length; a character is lower-cased when the character before it is cased, and upper-cased otherwise |
| PyText.TitleIdempotent | result_system/signals.py:59 | applying `title` twice gives the same string as applying it once |
| PyText.TitleKeepsUncased | result_system/signals.py:59 | `title` neither adds nor removes a character that has no case, such as `_` or a space |
| Models.Status.Code | result_system/models.py:93-99 | the five status keys are D, P_D, P_F, A and R, each at most three characters long |
| Models.StatusCodesDistinct | result_system/models.py:93-99 | the five statuses have distinct stored keys |
| Models.Rescored | result_system/models.py:192-220 | scoring keeps the result, the student and the five marks; it always sets a grade, IC exactly when the exam mark is missing, and a total exactly when the exam mark is present |
| Models.FieldErrors | result_system/models.py:126-167 | no field error exactly when every CA slot is null or in [0, 20], the exam mark is null or in [0, 60], and the total fits DecimalField(5, 2) |
| Models.FullClean | result_system/models.py:173-190 | no error exactly when the fields are valid, the result exists, the student has an enrollment in the result's course, and no other stored assessment has the same (result, student); it reports NotEnrolled and NotUnique exactly in those cases |
| Models.Database.Valid | result_system/models.py:85-173 | the store keeps the unique indexes on the enrollment 4-tuple (line 86), on `Result.course` (line 100) and on (result, student) (line 173), the foreign key to the result, and counters past every key in use, so the next key is always free |
| Models.Numbered | result_system/signals.py:20 | a batch handed to the auto-increment from `start` occupies exactly the keys `start` to `start + |batch| - 1`, row k under key `start + k` |
| Models.Database.InsertEnrollment | result_system/models.py:85-86 | an enrollment is appended exactly when that (student, course, year, semester) tuple is not stored yet; nothing else changes |
| Models.Database.WriteResult | result_system/models.py:100-106 | UPDATE of a stored key or INSERT under the given or a fresh key, reporting whether the row was created; refused, with nothing changed, when another result already holds the course |
| Models.Database.PersistAssessment | result_system/models.py:222 | a row that passed full_clean is stored under its own key, or under a fresh key when it has none, and the store's constraints still hold |
| Models.Database.BulkCreate | result_system/signals.py:20 | the batch is stored under consecutive fresh keys, exactly when it breaks no foreign key and no (result, student) pair, whether against stored rows or within the batch; otherwise nothing changes |
| Models.BulkInsertKeepsPairsUnique | result_system/models.py:173 | adding an admissible batch under fresh keys keeps (result, student) unique |
| Models.Assessment.Save | result_system/models.py:192-222 | the instance's total and grade are overwritten from its marks and nothing else on it changes; the row is written exactly when full_clean raises nothing; a refused save leaves the store unchanged |
| Models.CleanRowTotalWithinRange | result_system/models.py:221 | a scored row that passes full_clean has its marks in bounds and its total in [0, 140] |
| Models.InBoundsTotalFitsColumn | result_system/models.py:161-167 | marks in bounds never produce a total too long for its column |
| Models.CaSumCapNotEnforced | result_system/models.py:176-184 | four CA slots of 20 and an exam mark of 60 pass validation, with a total of 140.00 and grade A |
| Models.UnenrolledIsRefused | result_system/models.py:187-190 | with no enrollment of the student in the result's course, full_clean reports NotEnrolled |
| Models.SecondAssessmentIsRefused | result_system/models.py:173 | a new assessment for a (result, student) pair that is already stored is refused with NotUnique |
| Models.ResaveDoesNotClashWithItself | result_system/models.py:173 | re-saving a stored assessment does not clash with its own row |
| Models.RescoredIgnoresPriorValues | result_system/models.py:161-168 | the derived values depend only on the five marks; any prior total or grade is overwritten |
| Models.RescoredIdempotent | result_system/models.py:192-220 | scoring an already scored row changes nothing, so saving twice stores the same derived values |
| Signals.ForCourse | result_system/signals.py:16 | the filtered list holds only the course's enrollment rows, every one of them, and is no longer than the input |
| Signals.ForCourseCounts | result_system/signals.py:16 | each enrollment row of the course is kept as often as it is stored, and no row of another course is kept |
| Signals.ForCourseKeepsOrder | result_system/signals.py:16 | filtering keeps insertion order: the filter of a concatenation is the concatenation of the filters |
| Signals.ForCourseSingle | result_system/signals.py:16 | a single row is kept exactly when it belongs to the course |
| Signals.FanOut | result_system/signals.py:17-18 | the batch has one element per enrollment row of the course |
| Signals.BuildFanOut | result_system/signals.py:16-18 | the loop's result is, in order, one unscored assessment for each enrollment row of the course |
| Signals.CreateAssessmentsForStudentsInResult | result_system/signals.py:12-20 | on creation, the course's batch is bulk-inserted, or refused as a whole; when the save was not a creation, nothing is stored |
| Signals.SaveResult | result_system/signals.py:12-20 | the result is written, and assessments are fanned out exactly when the write created the row and the batch is admissible |
| Signals.CreateResult | result_system/signals.py:12-20 | a new result gets a fresh key and the default status D unless another status is named; its fan-out is stored exactly when no student has two enrollment rows in the course, and then it has one row per enrollment row |
| Signals.NewResultHasNoAssessments | result_system/models.py:120-122 | no stored assessment refers to a result key that is not in use |
| Signals.FanOutAdmissibleIffDistinct | result_system/signals.py:16-20 | for a new result, the fan-out can be stored exactly when the course's enrollment rows name distinct students |
| Signals.FanOutRows | result_system/signals.py:17-18 | row i of the batch is for the new result and the i-th enrolled student, with all marks, the total and the grade null, whereas a save would give IC |
| Signals.DoubleEnrollmentMakesDuplicatePair | result_system/signals.py:16-18 | a student enrolled in both semesters yields two batch rows with the same (result, student) pair |
| Signals.BuildChanges | result_system/signals.py:40-62 | the loop yields, in order, one entry per key of `old_data`: its display name, the old value, and the new value or `''` |
| Signals.SendLecturerEmailForResultModification | result_system/signals.py:24-62 | no change list unless the log row was just created; otherwise, the change list of its old and new data |
| Signals.Get | result_system/signals.py:50 | `new_data.get(field, '')` gives the value stored under the key, or the default when the key is missing |
| Signals.ChangeFor | result_system/signals.py:49-62 | an entry carries the field's display name and the old value; its new value is `''` for a field missing from `new_data`, and otherwise the value stored there |
| Signals.Changes | result_system/signals.py:49-62 | one entry per key of `old_data`, in order, with that key's display name and old value, and `''` as the new value of a key missing from `new_data` |
| Signals.NewValueOrEmpty | result_system/signals.py:50 | an entry whose field is present in `new_data` shows the value stored there as its new value |
| Signals.NewOnlyKeysIgnored | result_system/signals.py:49-50 | keys present only in `new_data` have no effect on the list |
| Signals.MarkFieldLabels | result_system/signals.py:41-47 | the five mark fields are shown as CA Slot 1 to CA Slot 4 and Exam Mark |
| Signals.OtherFieldLabel | result_system/signals.py:59 | any other field is shown as itself with spaces for underscores, title-cased |
| Signals.OtherFieldLabelIsTitled | result_system/signals.py:59 | such a fallback label is already title-cased: title-casing it again changes nothing |
| Signals.DisplayName | result_system/signals.py:41-59 | no display name contains an underscore, and a field other than the five marks keeps its length |
| Permissions.AnonymousDenied | result_system/permissions.py:8-55 | a request with no user or an anonymous one is denied by every class, except for a safe method under IsAdminOrReadOnly |
| Permissions.HasPermission | result_system/permissions.py:8-55 | only IsAdminOrReadOnly can grant a caller who is not signed in; it grants every safe method, and an unsafe one only to a present staff user |
| Permissions.HasRoleDecision | result_system/permissions.py:8-12 | HasRole grants exactly a signed-in user who holds a role whose name is in `required_roles` |
| Permissions.HasRoleEmptyDenies | result_system/permissions.py:6-12 | with the declared empty `required_roles`, HasRole denies everyone |
| Permissions.HasRoleMonotone | result_system/permissions.py:8-12 | adding names to `required_roles` never takes a grant away |
| Permissions.SafeMethodsAlwaysGranted | result_system/permissions.py:16-18 | GET, HEAD and OPTIONS are always granted, even to callers who are not authenticated |
| Permissions.UnsafeMethodsNeedStaff | result_system/permissions.py:16-19 | any other method is granted exactly to a present user with `is_staff` |
| Permissions.SafeMethodsAreExact | result_system/permissions.py:17 | a method name is safe exactly when it is GET, HEAD or OPTIONS, compared exactly, so `get` is not safe |
| Permissions.RoleChecksReadTheirFlag | result_system/permissions.py:29-55 | IsDRO, IsFRO and IsCO grant exactly a signed-in user whose `is_dro`, `is_fro` or `is_co` flag is set |
| Permissions.RoleChecksIgnoreMethodAndView | result_system/permissions.py:29-55 | these three checks give the same decision for every request method and every view |
| Permissions.DefaultUserDenied | core/models.py:7-10 | a user with the default flags (all false) is denied by IsDRO, IsFRO and IsCO |
| Permissions.RequiredRolesIgnoredByRoleChecks | result_system/permissions.py:25-55 | the `required_roles` of IsFRO, IsCO and IsDRO has no effect on their decision |
| Permissions.FlagsAndRoleNamesAreIndependent | result_system/permissions.py:8-44 | a set flag grants IsFRO without any role assignment, and a role named FRO does not grant it |

## Left out

- The approval workflow: no code submits, approves or rejects a result. `Status` is only a stored value, and any of the five can be written.
- Computing the `old_data`/`new_data` diff and requiring a modification reason: no code does either. `ModificationLog` is only a record shape, and the store holds no log table.
- E-mail sending, the template context and the `BadHeaderError` handling in the log receiver. The receiver's related-object lookup (signals.py:32-37) names an attribute that the log model does not have (its foreign key is `assessment`), so it would raise before the list is built. The model builds the change list from `old_data` and `new_data` alone.
- Float values in log data and their two-decimal formatting: `JsonValue` has no float, nested object or array, and values are carried through unchanged.
- `IsCourseLecturer`: it subscripts a method (`view.kwargs.get[...]`), which raises at run time, so it has no decision to state.
- The views, serializers, admin modules, URL configuration, settings, notification and audit apps: they hold no logic beyond ORM plumbing.
- Timestamps (`created_at`, `updated_at`, `submitted_at`, `modified_at`) are left out; nothing in the core reads them.
- Decimal inputs with more than two places, and inputs that are not decimals, cannot be expressed in hundredths. The decimal-places part of DecimalField validation is therefore not modelled.
- The students, courses, programs, departments and faculties tables: they are identified only by ids. The student foreign-key check of `clean_fields` is not modelled. Because enrollments refer only to existing students, the enrollment check refuses an unknown student too.
- Models.FullClean: it reports one error per invalid field, where Django may list several messages for one field. It also merges the `result` foreign-key error with the failure that `clean` hits when it follows a missing result, reporting both as `ResultDoesNotExist`. Whether a save is refused is modelled exactly.
- Scoring.GradeFor: its own contract says only that the result is a letter grade. The thresholds are stated by Scoring.GradeIsBandOfTotal, Scoring.GradeBoundaries and Scoring.GradeMonotone.
- PyText.Title: only ASCII letters are treated as cased. Python's Unicode case mappings of other letters are not modelled, including those that change the length (`'ß'` becomes `'Ss'`).
- The human-readable labels of the `Result.status` choices: only the stored keys are modelled, since nothing in the core reads the labels.
- Models.Database: a refused INSERT leaves the model's auto-increment counters unchanged, whereas InnoDB can consume auto-increment values on a failed insert. Keys are therefore promised fresh and ahead of every key in use, but on the MySQL backend the exact key values after a refusal can be higher than the model says.
- Signals.ForCourse: the queryset has no `order_by` and `Enrollment` declares no ordering, so SQL leaves the row order unspecified. The model takes it to be insertion order, and that order decides which fan-out row gets which auto-increment key.
- Deletion and cascades, transactions spanning several statements, and concurrent requests are not modelled; each operation is one sequential step.
- HasRole reads the user's role assignments through a relation that the user model shown does not define. The model takes the assigned role names as a field of the user (`roleNames`).
