/**
 * The result-system records and the database that holds them: enrollments, results
 * (one per course), assessments (one per result and student) and modification logs,
 * with the validation `Assessment.full_clean` runs and the guarded `Assessment.save`.
 */
module Models {
  import opened Wrappers
  import opened Scoring

  type StudentId = nat
  type CourseId = nat
  type ResultId = nat
  type AssessmentId = nat
  type UserId = nat

  /** The two choices of `Enrollment.semester`, stored as "Sem1" and "Sem2". */
  datatype Semester = Sem1 | Sem2

  /** A student's registration for a course in one semester of one academic year. */
  datatype Enrollment = Enrollment(student: StudentId, course: CourseId, academicYear: int, semester: Semester)

  /** The five values of `Result.status`; nothing in the system moves a result between them. */
  datatype Status = Draft | PendingDepartment | PendingFaculty | Approved | Rejected {

    /** The stored choice key. */
    function Code(): (s: string)
      ensures 1 <= |s| <= 3
    {
      match this
      case Draft => "D"
      case PendingDepartment => "P_D"
      case PendingFaculty => "P_F"
      case Approved => "A"
      case Rejected => "R"
    }
  }

  /** A new result is a draft unless the caller names another status. */
  const DefaultStatus: Status := Draft

  datatype ResultRow = ResultRow(course: CourseId, status: Status)

  /** An assessment as stored: five nullable marks and the two derived columns. */
  datatype AssessmentRow = AssessmentRow(
    result: ResultId,
    student: StudentId,
    caSlot1: Option<Hundredths>,
    caSlot2: Option<Hundredths>,
    caSlot3: Option<Hundredths>,
    caSlot4: Option<Hundredths>,
    examMark: Option<Hundredths>,
    totalScore: Option<Hundredths>,
    grade: Option<Grade>)

  /** An assessment for `student` in `result` that no save has scored: every mark and both derived columns are null. */
  function Unscored(result: ResultId, student: StudentId): AssessmentRow
  {
    AssessmentRow(result, student, None, None, None, None, None, None, None)
  }

  /** The row once `save` has overwritten its derived columns from its five marks. */
  function Rescored(r: AssessmentRow): (s: AssessmentRow)
    ensures s.(totalScore := r.totalScore, grade := r.grade) == r
    ensures s.grade.Some? && (s.grade.value == IC <==> r.examMark.None?)
    ensures s.totalScore.Some? <==> r.examMark.Some?
  {
    var d := Derive(r.caSlot1, r.caSlot2, r.caSlot3, r.caSlot4, r.examMark);
    r.(totalScore := d.totalScore, grade := Some(d.grade))
  }

  /** Both rows belong to the same result and the same student. */
  predicate SamePair(x: AssessmentRow, y: AssessmentRow)
  {
    x.result == y.result && x.student == y.student
  }

  // ---------------------------------------------------------------------------
  // Field validation

  const CaSlotMax: Hundredths := 2000
  const ExamMarkMax: Hundredths := 6000
  /** The largest magnitude a `DecimalField(max_digits=5, decimal_places=2)` can hold: 999.99. */
  const DecimalLimit: Hundredths := 99999

  /** A nullable mark is null or lies in [0, max]. */
  predicate WithinBounds(v: Option<Hundredths>, max: Hundredths)
  {
    v.None? || 0 <= v.value <= max
  }

  predicate FitsDecimal(v: Option<Hundredths>)
  {
    v.None? || -DecimalLimit <= v.value <= DecimalLimit
  }

  /** Each CA slot is null or in [0, 20] and the exam mark is null or in [0, 60]. */
  predicate MarksInBounds(r: AssessmentRow)
  {
    && WithinBounds(r.caSlot1, CaSlotMax)
    && WithinBounds(r.caSlot2, CaSlotMax)
    && WithinBounds(r.caSlot3, CaSlotMax)
    && WithinBounds(r.caSlot4, CaSlotMax)
    && WithinBounds(r.examMark, ExamMarkMax)
  }

  datatype Field = CaSlot1 | CaSlot2 | CaSlot3 | CaSlot4 | ExamMark | TotalScore

  /** The ValidationError entries `full_clean` can raise for an assessment. */
  datatype CleanError =
    | InvalidField(field: Field)
    | ResultDoesNotExist
    | NotEnrolled
    | NotUnique

  function Check(ok: bool, e: CleanError): set<CleanError>
  {
    if ok then {} else {e}
  }

  /** `clean_fields`: the bound validators of the five marks and the digit limit of `total_score`. */
  function FieldErrors(r: AssessmentRow): (errs: set<CleanError>)
    ensures errs == {} <==> MarksInBounds(r) && FitsDecimal(r.totalScore)
    ensures forall e :: e in errs ==> e.InvalidField?
  {
    Check(WithinBounds(r.caSlot1, CaSlotMax), InvalidField(CaSlot1))
    + Check(WithinBounds(r.caSlot2, CaSlotMax), InvalidField(CaSlot2))
    + Check(WithinBounds(r.caSlot3, CaSlotMax), InvalidField(CaSlot3))
    + Check(WithinBounds(r.caSlot4, CaSlotMax), InvalidField(CaSlot4))
    + Check(WithinBounds(r.examMark, ExamMarkMax), InvalidField(ExamMark))
    + Check(FitsDecimal(r.totalScore), InvalidField(TotalScore))
  }

  /** Some enrollment of `student` in `course` exists, in any year or semester. */
  predicate IsEnrolled(enrollments: seq<Enrollment>, student: StudentId, course: CourseId)
  {
    exists i :: 0 <= i < |enrollments| && enrollments[i].student == student && enrollments[i].course == course
  }

  /** Another stored assessment, not the row `pk` names, has the same result and student. */
  predicate ClashesWith(assessments: map<AssessmentId, AssessmentRow>, r: AssessmentRow, pk: Option<AssessmentId>)
  {
    exists id :: id in assessments && Some(id) != pk && SamePair(assessments[id], r)
  }

  /**
   * `full_clean` of an assessment whose primary key is `pk` (None for an instance not yet
   * saved): the field checks, the enrollment check of `clean` and the (result, student)
   * uniqueness check. All errors are collected; a missing result leaves no course to check
   * enrollment against and excludes the pair from the uniqueness check.
   */
  function FullClean(enrollments: seq<Enrollment>, results: map<ResultId, ResultRow>,
                     assessments: map<AssessmentId, AssessmentRow>, r: AssessmentRow,
                     pk: Option<AssessmentId>): (errs: set<CleanError>)
    ensures errs == {} <==>
              && MarksInBounds(r)
              && FitsDecimal(r.totalScore)
              && r.result in results
              && IsEnrolled(enrollments, r.student, results[r.result].course)
              && !ClashesWith(assessments, r, pk)
    ensures NotEnrolled in errs <==>
              r.result in results && !IsEnrolled(enrollments, r.student, results[r.result].course)
    ensures NotUnique in errs <==> r.result in results && ClashesWith(assessments, r, pk)
  {
    FieldErrors(r)
    + if r.result !in results then {ResultDoesNotExist}
      else Check(IsEnrolled(enrollments, r.student, results[r.result].course), NotEnrolled)
           + Check(!ClashesWith(assessments, r, pk), NotUnique)
  }

  // ---------------------------------------------------------------------------
  // Database constraints

  /** The unique index on (student, course, academic_year, semester). */
  predicate EnrollmentsUnique(es: seq<Enrollment>)
  {
    forall i, j :: 0 <= i < j < |es| ==> es[i] != es[j]
  }

  /** `Result.course` is one-to-one: no two results share a course. */
  predicate OneResultPerCourse(results: map<ResultId, ResultRow>)
  {
    forall x, y :: x in results && y in results && x != y ==> results[x].course != results[y].course
  }

  /** Some result other than `except` already belongs to `course`. */
  predicate CourseTaken(results: map<ResultId, ResultRow>, course: CourseId, except: ResultId)
  {
    exists id :: id in results && id != except && results[id].course == course
  }

  /** The unique index on (result, student). */
  predicate PairsUnique(assessments: map<AssessmentId, AssessmentRow>)
  {
    forall x, y :: x in assessments && y in assessments && x != y ==> !SamePair(assessments[x], assessments[y])
  }

  /** The foreign key from an assessment to its result. */
  predicate ResultsReferenced(assessments: map<AssessmentId, AssessmentRow>, results: map<ResultId, ResultRow>)
  {
    forall x :: x in assessments ==> assessments[x].result in results
  }

  /** A batch that a single multi-row INSERT can store without breaking a foreign key or the (result, student) index. */
  predicate BatchAdmissible(results: map<ResultId, ResultRow>, assessments: map<AssessmentId, AssessmentRow>,
                            batch: seq<AssessmentRow>)
  {
    && (forall i :: 0 <= i < |batch| ==> batch[i].result in results)
    && (forall i, j :: 0 <= i < j < |batch| ==> !SamePair(batch[i], batch[j]))
    && (forall i, id :: 0 <= i < |batch| && id in assessments ==> !SamePair(assessments[id], batch[i]))
  }

  /** The rows of `batch` under the consecutive keys the auto-increment hands out from `start`. */
  function Numbered(start: AssessmentId, batch: seq<AssessmentRow>): (m: map<AssessmentId, AssessmentRow>)
    ensures forall k :: k in m <==> start <= k < start + |batch|
    ensures forall k :: k in m ==> m[k] == batch[k - start]
  {
    if batch == [] then map[]
    else Numbered(start, batch[..|batch| - 1])[start + |batch| - 1 := batch[|batch| - 1]]
  }

  datatype WriteOutcome = Written(id: ResultId, created: bool) | IntegrityError

  /** The data store the ORM reads and writes. The next-id counters model auto-increment keys. */
  class Database {
    var enrollments: seq<Enrollment>
    var results: map<ResultId, ResultRow>
    var assessments: map<AssessmentId, AssessmentRow>
    var nextResultId: nat
    var nextAssessmentId: nat

    /** The database's constraints, and counters ahead of every key in use. */
    ghost predicate Valid()
      reads this
      ensures Valid() ==> nextResultId !in results && nextAssessmentId !in assessments
    {
      && EnrollmentsUnique(enrollments)
      && OneResultPerCourse(results)
      && PairsUnique(assessments)
      && ResultsReferenced(assessments, results)
      && (forall id :: id in results ==> id < nextResultId)
      && (forall id :: id in assessments ==> id < nextAssessmentId)
    }

    constructor ()
      ensures Valid()
      ensures enrollments == [] && results == map[] && assessments == map[]
    {
      enrollments, results, assessments := [], map[], map[];
      nextResultId, nextAssessmentId := 0, 0;
    }

    /** Saving a new Enrollment: the unique index refuses a tuple that is already stored. */
    method InsertEnrollment(e: Enrollment) returns (ok: bool)
      requires Valid()
      modifies this
      ensures Valid()
      ensures ok <==> e !in old(enrollments)
      ensures enrollments == if ok then old(enrollments) + [e] else old(enrollments)
      ensures results == old(results) && assessments == old(assessments)
      ensures nextResultId == old(nextResultId) && nextAssessmentId == old(nextAssessmentId)
    {
      ok := e !in enrollments;
      if ok {
        enrollments := enrollments + [e];
      }
    }

    /**
     * The write `Result.save` performs: an UPDATE when `pk` names a stored row, otherwise an
     * INSERT (under `pk`, or under a fresh key when `pk` is None). The one-to-one index on the
     * course refuses a row whose course another result already holds.
     */
    method WriteResult(pk: Option<ResultId>, row: ResultRow) returns (outcome: WriteOutcome)
      requires Valid()
      modifies this
      ensures Valid()
      ensures var target := if pk.Some? then pk.value else old(nextResultId);
              && (outcome == IntegrityError <==> CourseTaken(old(results), row.course, target))
              && (outcome.Written? ==>
                    && outcome.id == target
                    && outcome.created == (target !in old(results))
                    && results == old(results)[target := row]
                    && nextResultId == if target < old(nextResultId) then old(nextResultId) else target + 1)
              && (outcome == IntegrityError ==> results == old(results) && nextResultId == old(nextResultId))
      ensures enrollments == old(enrollments) && assessments == old(assessments)
      ensures nextAssessmentId == old(nextAssessmentId)
    {
      var target := if pk.Some? then pk.value else nextResultId;
      if exists id :: id in results && id != target && results[id].course == row.course {
        return IntegrityError;
      }
      outcome := Written(target, target !in results);
      results := results[target := row];
      if nextResultId <= target {
        nextResultId := target + 1;
      }
    }

    /** The INSERT or UPDATE of an assessment that `full_clean` has passed. */
    method PersistAssessment(pk: Option<AssessmentId>, row: AssessmentRow) returns (id: AssessmentId)
      requires Valid()
      requires FullClean(enrollments, results, assessments, row, pk) == {}
      modifies this
      ensures Valid()
      ensures id == if pk.Some? then pk.value else old(nextAssessmentId)
      ensures assessments == old(assessments)[id := row]
      ensures nextAssessmentId == if id < old(nextAssessmentId) then old(nextAssessmentId) else id + 1
      ensures enrollments == old(enrollments) && results == old(results)
      ensures nextResultId == old(nextResultId)
    {
      id := if pk.Some? then pk.value else nextAssessmentId;
      assessments := assessments[id := row];
      if nextAssessmentId <= id {
        nextAssessmentId := id + 1;
      }
    }

    /**
     * `Assessment.objects.bulk_create(batch)`: one INSERT of every row under consecutive new
     * keys, refused as a whole if a row breaks a foreign key or the (result, student) index.
     * It never calls `Assessment.save`, so the rows are stored as given.
     */
    method BulkCreate(batch: seq<AssessmentRow>) returns (ok: bool)
      requires Valid()
      modifies this
      ensures Valid()
      ensures ok <==> BatchAdmissible(old(results), old(assessments), batch)
      ensures ok ==> assessments == old(assessments) + Numbered(old(nextAssessmentId), batch)
                     && nextAssessmentId == old(nextAssessmentId) + |batch|
      ensures !ok ==> assessments == old(assessments) && nextAssessmentId == old(nextAssessmentId)
      ensures enrollments == old(enrollments) && results == old(results)
      ensures nextResultId == old(nextResultId)
    {
      ok := BatchAdmissible(results, assessments, batch);
      if ok {
        BulkInsertKeepsPairsUnique(assessments, nextAssessmentId, batch);
        assessments := assessments + Numbered(nextAssessmentId, batch);
        nextAssessmentId := nextAssessmentId + |batch|;
      }
    }
  }

  lemma BulkInsertKeepsPairsUnique(assessments: map<AssessmentId, AssessmentRow>, start: AssessmentId,
                                   batch: seq<AssessmentRow>)
    requires PairsUnique(assessments)
    requires forall id :: id in assessments ==> id < start
    requires forall i, j :: 0 <= i < j < |batch| ==> !SamePair(batch[i], batch[j])
    requires forall i, id :: 0 <= i < |batch| && id in assessments ==> !SamePair(assessments[id], batch[i])
    ensures PairsUnique(assessments + Numbered(start, batch))
  {
    var m := assessments + Numbered(start, batch);
    forall x, y | x in m && y in m && x != y
      ensures !SamePair(m[x], m[y])
    {
      if x >= start && y >= start {
        if x < y {
          assert !SamePair(batch[x - start], batch[y - start]);
        } else {
          assert !SamePair(batch[y - start], batch[x - start]);
        }
      } else if x >= start {
        assert y in assessments;
        assert !SamePair(assessments[y], batch[x - start]);
      } else if y >= start {
        assert x in assessments;
        assert !SamePair(assessments[x], batch[y - start]);
      }
    }
  }

  /** An Assessment instance in memory: its fields change on `save` whether or not the save succeeds. */
  class Assessment {
    var pk: Option<AssessmentId>
    var result: ResultId
    var student: StudentId
    var caSlot1: Option<Hundredths>
    var caSlot2: Option<Hundredths>
    var caSlot3: Option<Hundredths>
    var caSlot4: Option<Hundredths>
    var examMark: Option<Hundredths>
    var totalScore: Option<Hundredths>
    var grade: Option<Grade>

    /** `Assessment(result=…, student=…, ca_slot1=…, …)`: an instance not yet saved. */
    constructor (result: ResultId, student: StudentId, ca1: Option<Hundredths>, ca2: Option<Hundredths>,
                 ca3: Option<Hundredths>, ca4: Option<Hundredths>, exam: Option<Hundredths>)
      ensures pk == None
      ensures Row() == AssessmentRow(result, student, ca1, ca2, ca3, ca4, exam, None, None)
    {
      this.pk := None;
      this.result, this.student := result, student;
      this.caSlot1, this.caSlot2, this.caSlot3, this.caSlot4 := ca1, ca2, ca3, ca4;
      this.examMark := exam;
      this.totalScore, this.grade := None, None;
    }

    /** An instance loaded from the stored row with key `id`. */
    constructor Load(id: AssessmentId, row: AssessmentRow)
      ensures pk == Some(id) && Row() == row
    {
      this.pk := Some(id);
      this.result, this.student := row.result, row.student;
      this.caSlot1, this.caSlot2, this.caSlot3, this.caSlot4 := row.caSlot1, row.caSlot2, row.caSlot3, row.caSlot4;
      this.examMark := row.examMark;
      this.totalScore, this.grade := row.totalScore, row.grade;
    }

    /** The columns this instance would write. */
    function Row(): AssessmentRow
      reads this
    {
      AssessmentRow(result, student, caSlot1, caSlot2, caSlot3, caSlot4, examMark, totalScore, grade)
    }

    /**
     * `Assessment.save`: derive `total_score` and `grade` from the marks, run `full_clean`
     * against the store, and write the row only when it raised nothing.
     */
    method Save(db: Database) returns (errors: set<CleanError>)
      requires db.Valid()
      modifies this, db
      ensures db.Valid()
      ensures Row() == Rescored(old(Row()))
      ensures errors == FullClean(old(db.enrollments), old(db.results), old(db.assessments), Row(), old(pk))
      ensures errors == {} ==>
                && pk == Some(if old(pk).Some? then old(pk).value else old(db.nextAssessmentId))
                && db.assessments == old(db.assessments)[pk.value := Row()]
                && db.nextAssessmentId ==
                     if pk.value < old(db.nextAssessmentId) then old(db.nextAssessmentId) else pk.value + 1
      ensures errors != {} ==>
                && pk == old(pk)
                && db.assessments == old(db.assessments)
                && db.nextAssessmentId == old(db.nextAssessmentId)
      ensures db.enrollments == old(db.enrollments) && db.results == old(db.results)
      ensures db.nextResultId == old(db.nextResultId)
    {
      var d := Derive(caSlot1, caSlot2, caSlot3, caSlot4, examMark);
      totalScore := d.totalScore;
      grade := Some(d.grade);
      errors := FullClean(db.enrollments, db.results, db.assessments, Row(), pk);
      if errors == {} {
        var id := db.PersistAssessment(pk, Row());
        pk := Some(id);
      }
    }
  }

  // ---------------------------------------------------------------------------
  // Properties of the guarded save

  /** A row that passes `full_clean` has every mark in bounds, so its scored total lies in [0, 140]. */
  lemma CleanRowTotalWithinRange(enrollments: seq<Enrollment>, results: map<ResultId, ResultRow>,
                                 assessments: map<AssessmentId, AssessmentRow>, r: AssessmentRow,
                                 pk: Option<AssessmentId>)
    requires FullClean(enrollments, results, assessments, Rescored(r), pk) == {}
    ensures MarksInBounds(r)
    ensures Rescored(r).totalScore.Some? ==> 0 <= Rescored(r).totalScore.value <= 14000
  {
  }

  /** Marks in bounds never trip the digit limit of `total_score`. */
  lemma InBoundsTotalFitsColumn(r: AssessmentRow)
    requires MarksInBounds(r)
    ensures FitsDecimal(Rescored(r).totalScore)
    ensures FieldErrors(Rescored(r)) == {}
  {
  }

  /** The commented-out CA cap is not enforced: four full CA slots and a full exam pass validation with 140.00. */
  lemma CaSumCapNotEnforced(result: ResultId, student: StudentId)
    ensures var r := Rescored(AssessmentRow(result, student, Some(2000), Some(2000), Some(2000), Some(2000),
                                            Some(6000), None, None));
            FieldErrors(r) == {} && r.totalScore == Some(14000) && r.grade == Some(A)
  {
  }

  /** Without an enrollment of the student in the result's course the save is refused. */
  lemma UnenrolledIsRefused(enrollments: seq<Enrollment>, results: map<ResultId, ResultRow>,
                            assessments: map<AssessmentId, AssessmentRow>, r: AssessmentRow,
                            pk: Option<AssessmentId>)
    requires r.result in results
    requires forall i :: 0 <= i < |enrollments| ==>
               enrollments[i].student != r.student || enrollments[i].course != results[r.result].course
    ensures NotEnrolled in FullClean(enrollments, results, assessments, r, pk)
  {
  }

  /** A second assessment for the same result and student is refused when it is first saved. */
  lemma SecondAssessmentIsRefused(enrollments: seq<Enrollment>, results: map<ResultId, ResultRow>,
                                  assessments: map<AssessmentId, AssessmentRow>, r: AssessmentRow,
                                  existing: AssessmentId)
    requires existing in assessments && SamePair(assessments[existing], r)
    requires r.result in results
    ensures NotUnique in FullClean(enrollments, results, assessments, r, None)
    ensures FullClean(enrollments, results, assessments, r, None) != {}
  {
  }

  /** Re-saving a stored row does not clash with the row itself. */
  lemma ResaveDoesNotClashWithItself(assessments: map<AssessmentId, AssessmentRow>, id: AssessmentId)
    requires id in assessments && PairsUnique(assessments)
    ensures !ClashesWith(assessments, assessments[id], Some(id))
  {
  }

  /** The derived columns depend on the marks only: whatever they held before is overwritten. */
  lemma RescoredIgnoresPriorValues(r: AssessmentRow, total: Option<Hundredths>, grade: Option<Grade>)
    ensures Rescored(r.(totalScore := total, grade := grade)) == Rescored(r)
  {
  }

  /** Scoring a scored row again changes nothing, so saving twice stores the same derived values. */
  lemma RescoredIdempotent(r: AssessmentRow)
    ensures Rescored(Rescored(r)) == Rescored(r)
  {
  }

  /** The stored codes of the five statuses are distinct. */
  lemma StatusCodesDistinct(s: Status, t: Status)
    requires s.Code() == t.Code()
    ensures s == t
  {
  }

  /** A JSON scalar as a modification log stores it. */
  datatype JsonValue = JNull | JBool(b: bool) | JInt(i: int) | JString(s: string)

  /** No key occurs twice among the pairs. */
  predicate KeysDistinct(pairs: seq<(string, JsonValue)>)
  {
    forall i, j :: 0 <= i < j < |pairs| ==> pairs[i].0 != pairs[j].0
  }

  /** A JSON object read into a Python dict: its (key, value) pairs in insertion order, each key once. */
  type JsonObject = pairs: seq<(string, JsonValue)> | KeysDistinct(pairs)

  /** The record a modification log holds: which assessment, who changed it, the values before and after, and why. */
  datatype ModificationLog = ModificationLog(
    assessment: AssessmentId,
    modifiedBy: Option<UserId>,
    oldData: JsonObject,
    newData: JsonObject,
    reason: string)
}
