/**
 * The two post-save receivers: a newly created Result fans out one blank Assessment per
 * enrollment of its course, and a newly created modification log is turned into the list
 * of changes the lecturer's e-mail shows.
 */
module Signals {
  import opened Wrappers
  import opened Scoring
  import opened Models
  import opened PyText

  // ---------------------------------------------------------------------------
  // Assessment fan-out

  /**
   * `Enrollment.objects.filter(course=course)`: the enrollment rows of one course, in the
   * order they were inserted, each as often as it is stored.
   */
  function ForCourse(enrollments: seq<Enrollment>, course: CourseId): (rows: seq<Enrollment>)
    ensures |rows| <= |enrollments|
    ensures forall e :: e in rows <==> e in enrollments && e.course == course
  {
    if enrollments == [] then []
    else
      var last := enrollments[|enrollments| - 1];
      ForCourse(enrollments[..|enrollments| - 1], course) + (if last.course == course then [last] else [])
  }

  /** Each row of the course is kept as often as it is stored, and no other row is kept. */
  lemma {:induction false} ForCourseCounts(enrollments: seq<Enrollment>, course: CourseId, e: Enrollment)
    ensures multiset(ForCourse(enrollments, course))[e] == if e.course == course then multiset(enrollments)[e] else 0
  {
    if enrollments != [] {
      var init, last := enrollments[..|enrollments| - 1], enrollments[|enrollments| - 1];
      assert enrollments == init + [last];
      ForCourseCounts(init, course, e);
    }
  }

  /** The filter keeps insertion order: filtering a concatenation concatenates the filtered parts. */
  lemma {:induction false} ForCourseKeepsOrder(front: seq<Enrollment>, back: seq<Enrollment>, course: CourseId)
    ensures ForCourse(front + back, course) == ForCourse(front, course) + ForCourse(back, course)
  {
    if back == [] {
      assert front + back == front;
    } else {
      var init, last := back[..|back| - 1], back[|back| - 1];
      var kept := if last.course == course then [last] else [];
      assert (front + back)[..|front + back| - 1] == front + init;
      assert ForCourse(front + back, course) == ForCourse(front + init, course) + kept;
      assert ForCourse(back, course) == ForCourse(init, course) + kept;
      ForCourseKeepsOrder(front, init, course);
      ConcatAssociative(ForCourse(front, course), ForCourse(init, course), kept);
    }
  }

  lemma ConcatAssociative<T>(a: seq<T>, b: seq<T>, c: seq<T>)
    ensures a + b + c == a + (b + c)
  {
  }

  /** A single row passes the filter exactly when it belongs to the course. */
  lemma ForCourseSingle(e: Enrollment, course: CourseId)
    ensures ForCourse([e], course) == if e.course == course then [e] else []
  {
    assert [e][..0] == [];
  }

  /** The unsaved assessments the receiver builds: one per enrollment row, for that row's student. */
  function FanOut(enrollments: seq<Enrollment>, course: CourseId, result: ResultId): (batch: seq<AssessmentRow>)
    ensures |batch| == |ForCourse(enrollments, course)|
  {
    var rows := ForCourse(enrollments, course);
    seq(|rows|, i requires 0 <= i < |rows| => Unscored(result, rows[i].student))
  }

  /** No student has two enrollment rows in the list. */
  predicate DistinctStudents(rows: seq<Enrollment>)
  {
    forall i, j :: 0 <= i < j < |rows| ==> rows[i].student != rows[j].student
  }

  /** The comprehension over the course's enrollments. */
  method BuildFanOut(enrollments: seq<Enrollment>, course: CourseId, result: ResultId)
    returns (batch: seq<AssessmentRow>)
    ensures batch == FanOut(enrollments, course, result)
  {
    batch := [];
    for i := 0 to |enrollments|
      invariant |batch| == |ForCourse(enrollments[..i], course)|
      invariant forall k :: 0 <= k < |batch| ==>
                  batch[k] == Unscored(result, ForCourse(enrollments[..i], course)[k].student)
    {
      assert enrollments[..i + 1][..i] == enrollments[..i];
      assert ForCourse(enrollments[..i + 1], course) ==
             ForCourse(enrollments[..i], course) + (if enrollments[i].course == course then [enrollments[i]] else []);
      if enrollments[i].course == course {
        batch := batch + [Unscored(result, enrollments[i].student)];
      }
    }
    assert enrollments[..|enrollments|] == enrollments;
  }

  datatype FanOutOutcome =
    | NotCreated        // the save updated an existing result
    | Created(count: nat)
    | Refused           // bulk_create raised IntegrityError

  /**
   * `create_assessment_for_students_in_result`: the batch is built on every save of a
   * Result and stored only when the save created the row.
   */
  method CreateAssessmentsForStudentsInResult(db: Database, instance: ResultId, created: bool)
    returns (outcome: FanOutOutcome)
    requires db.Valid() && instance in db.results
    modifies db
    ensures db.Valid()
    ensures var batch := FanOut(old(db.enrollments), old(db.results)[instance].course, instance);
            && (!created ==> outcome == NotCreated)
            && (created && BatchAdmissible(old(db.results), old(db.assessments), batch) ==>
                  && outcome == Created(|batch|)
                  && db.assessments == old(db.assessments) + Numbered(old(db.nextAssessmentId), batch)
                  && db.nextAssessmentId == old(db.nextAssessmentId) + |batch|)
            && (created && !BatchAdmissible(old(db.results), old(db.assessments), batch) ==> outcome == Refused)
    ensures !outcome.Created? ==> db.assessments == old(db.assessments) && db.nextAssessmentId == old(db.nextAssessmentId)
    ensures db.enrollments == old(db.enrollments) && db.results == old(db.results)
    ensures db.nextResultId == old(db.nextResultId)
  {
    var course := db.results[instance].course;
    var batch := BuildFanOut(db.enrollments, course, instance);
    if created {
      var ok := db.BulkCreate(batch);
      outcome := if ok then Created(|batch|) else Refused;
    } else {
      outcome := NotCreated;
    }
  }

  datatype ResultSaveOutcome =
    | Saved(id: ResultId, created: bool, fanOut: FanOutOutcome)
    | ResultRefused     // the one-to-one index on the course raised IntegrityError

  /** `Result.save`: the write, then the post_save receiver with the `created` flag the write reports. */
  method SaveResult(db: Database, pk: Option<ResultId>, row: ResultRow) returns (outcome: ResultSaveOutcome)
    requires db.Valid()
    modifies db
    ensures db.Valid()
    ensures var target := if pk.Some? then pk.value else old(db.nextResultId);
            && (outcome == ResultRefused <==> CourseTaken(old(db.results), row.course, target))
            && (outcome == ResultRefused ==>
                  && db.results == old(db.results) && db.assessments == old(db.assessments)
                  && db.nextResultId == old(db.nextResultId) && db.nextAssessmentId == old(db.nextAssessmentId))
            && (outcome.Saved? ==>
                  && outcome.id == target
                  && outcome.created == (target !in old(db.results))
                  && db.results == old(db.results)[target := row]
                  && db.nextResultId == (if target < old(db.nextResultId) then old(db.nextResultId) else target + 1)
                  && (outcome.fanOut.NotCreated? <==> !outcome.created)
                  && (outcome.fanOut.Created? <==>
                        outcome.created && BatchAdmissible(db.results, old(db.assessments),
                                                           FanOut(old(db.enrollments), row.course, target)))
                  && (outcome.fanOut.Created? ==>
                        outcome.fanOut.count == |FanOut(old(db.enrollments), row.course, target)|)
                  && (!outcome.fanOut.Created? ==>
                        db.assessments == old(db.assessments) && db.nextAssessmentId == old(db.nextAssessmentId))
                  && (outcome.fanOut.Created? ==>
                        db.nextAssessmentId == old(db.nextAssessmentId) + outcome.fanOut.count)
                  && (outcome.fanOut.Created? ==>
                        db.assessments == old(db.assessments) +
                                          Numbered(old(db.nextAssessmentId), FanOut(old(db.enrollments), row.course, target))))
    ensures db.enrollments == old(db.enrollments)
  {
    var w := db.WriteResult(pk, row);
    match w
    case IntegrityError =>
      outcome := ResultRefused;
    case Written(id, created) =>
      var fanOut := CreateAssessmentsForStudentsInResult(db, id, created);
      outcome := Saved(id, created, fanOut);
  }

  /**
   * `Result.objects.create(course_id=course, …)`: a new row under a fresh key, with the
   * requested status or the default one, followed by the fan-out.
   */
  method CreateResult(db: Database, course: CourseId, status: Option<Status>) returns (outcome: ResultSaveOutcome)
    requires db.Valid()
    modifies db
    ensures db.Valid()
    ensures outcome == ResultRefused <==> CourseTaken(old(db.results), course, old(db.nextResultId))
    ensures outcome.Saved? ==>
              && outcome.id == old(db.nextResultId)
              && db.nextResultId == old(db.nextResultId) + 1
              && outcome.created
              && db.results == old(db.results)[outcome.id := ResultRow(course, status.GetOr(DefaultStatus))]
              && (outcome.fanOut.Created? <==> DistinctStudents(ForCourse(old(db.enrollments), course)))
              && (outcome.fanOut.Created? ==>
                    && outcome.fanOut.count == |ForCourse(old(db.enrollments), course)|
                    && db.assessments == old(db.assessments) +
                                         Numbered(old(db.nextAssessmentId), FanOut(old(db.enrollments), course, outcome.id)))
              && outcome.fanOut != NotCreated
              && (outcome.fanOut.Created? ==> db.nextAssessmentId == old(db.nextAssessmentId) + outcome.fanOut.count)
              && (!outcome.fanOut.Created? ==>
                    db.assessments == old(db.assessments) && db.nextAssessmentId == old(db.nextAssessmentId))
    ensures outcome == ResultRefused ==>
              && db.results == old(db.results) && db.assessments == old(db.assessments)
              && db.nextResultId == old(db.nextResultId) && db.nextAssessmentId == old(db.nextAssessmentId)
    ensures db.enrollments == old(db.enrollments)
  {
    ghost var results0, assessments0, enrollments0 := db.results, db.assessments, db.enrollments;
    ghost var id0 := db.nextResultId;
    outcome := SaveResult(db, None, ResultRow(course, status.GetOr(DefaultStatus)));
    if outcome.Saved? {
      assert id0 !in results0;
      NewResultHasNoAssessments(results0, assessments0, id0);
      FanOutAdmissibleIffDistinct(db.results, assessments0, enrollments0, course, id0);
    }
  }

  /** A key no stored result uses is referenced by no stored assessment. */
  lemma NewResultHasNoAssessments(results: map<ResultId, ResultRow>, assessments: map<AssessmentId, AssessmentRow>,
                                  result: ResultId)
    requires ResultsReferenced(assessments, results) && result !in results
    ensures forall id :: id in assessments ==> assessments[id].result != result
  {
  }

  /**
   * For a result no assessment refers to yet, the fan-out batch can be stored exactly when
   * no student has two enrollment rows in the course.
   */
  lemma FanOutAdmissibleIffDistinct(results: map<ResultId, ResultRow>, assessments: map<AssessmentId, AssessmentRow>,
                                    enrollments: seq<Enrollment>, course: CourseId, result: ResultId)
    requires result in results
    requires forall id :: id in assessments ==> assessments[id].result != result
    ensures BatchAdmissible(results, assessments, FanOut(enrollments, course, result))
            <==> DistinctStudents(ForCourse(enrollments, course))
  {
    var rows := ForCourse(enrollments, course);
    var batch := FanOut(enrollments, course, result);
    if DistinctStudents(rows) {
      forall i, j | 0 <= i < j < |batch|
        ensures !SamePair(batch[i], batch[j])
      {
        assert rows[i].student != rows[j].student;
      }
    } else {
      var i, j :| 0 <= i < j < |rows| && rows[i].student == rows[j].student;
      assert SamePair(batch[i], batch[j]);
    }
  }

  /** The batch has one unscored row per enrollment row of the course, in order: null marks, null total and a null grade, not IC. */
  lemma FanOutRows(enrollments: seq<Enrollment>, course: CourseId, result: ResultId, i: nat)
    requires i < |ForCourse(enrollments, course)|
    ensures var row := FanOut(enrollments, course, result)[i];
            && row.result == result
            && row.student == ForCourse(enrollments, course)[i].student
            && row.caSlot1 == row.caSlot2 == row.caSlot3 == row.caSlot4 == row.examMark == None
            && row.totalScore == None && row.grade == None
            && Rescored(row).grade == Some(IC)
  {
  }

  /** A student enrolled twice in one course, in two semesters, makes the fan-out two rows for the same pair. */
  lemma DoubleEnrollmentMakesDuplicatePair(student: StudentId, course: CourseId, result: ResultId)
    ensures var es := [Enrollment(student, course, 2025, Sem1), Enrollment(student, course, 2025, Sem2)];
            && EnrollmentsUnique(es)
            && |FanOut(es, course, result)| == 2
            && !DistinctStudents(ForCourse(es, course))
            && SamePair(FanOut(es, course, result)[0], FanOut(es, course, result)[1])
  {
    var es := [Enrollment(student, course, 2025, Sem1), Enrollment(student, course, 2025, Sem2)];
    assert es[0] != es[1];
    assert es[..1] == [es[0]];
    assert es[..1][..0] == [];
    assert ForCourse(es, course) == es;
    assert FanOut(es, course, result) == [Unscored(result, student), Unscored(result, student)];
  }

  // ---------------------------------------------------------------------------
  // The change list of a modification log

  /** `dict.get(key, default)` on a JSON object: the value stored under the key, or the default when the key is missing. */
  function Get(obj: JsonObject, key: string, default: JsonValue): (v: JsonValue)
    ensures !HasKey(obj, key) ==> v == default
    ensures forall i :: 0 <= i < |obj| && obj[i].0 == key ==> v == obj[i].1
  {
    if obj == [] then default
    else if obj[0].0 == key then obj[0].1
    else Get(obj[1..], key, default)
  }

  predicate HasKey(obj: JsonObject, key: string)
  {
    exists i :: 0 <= i < |obj| && obj[i].0 == key
  }

  /** The fixed labels of the five marks; any other field name has its underscores made spaces and is title-cased. */
  function DisplayName(field: string): (name: string)
    ensures '_' !in name
    ensures !IsMarkField(field) ==> |name| == |field|
  {
    if field == "ca_slot1" then "CA Slot 1"
    else if field == "ca_slot2" then "CA Slot 2"
    else if field == "ca_slot3" then "CA Slot 3"
    else if field == "ca_slot4" then "CA Slot 4"
    else if field == "exam_mark" then "Exam Mark"
    else
      var spaced := Replace(field, '_', ' ');
      assert forall i :: 0 <= i < |spaced| ==> spaced[i] != '_';
      TitleKeepsUncased(spaced, '_');
      Title(spaced)
  }

  predicate IsMarkField(field: string)
  {
    field in {"ca_slot1", "ca_slot2", "ca_slot3", "ca_slot4", "exam_mark"}
  }

  /** One entry of the e-mail's change list. */
  datatype Change = Change(field: string, oldValue: JsonValue, newValue: JsonValue)

  /** The entry for one key of `old_data`; a key missing from `new_data` shows the empty string. */
  function ChangeFor(field: string, oldValue: JsonValue, newData: JsonObject): (c: Change)
    ensures c.field == DisplayName(field) && c.oldValue == oldValue
    ensures !HasKey(newData, field) ==> c.newValue == JString("")
    ensures forall j :: 0 <= j < |newData| && newData[j].0 == field ==> c.newValue == newData[j].1
  {
    Change(DisplayName(field), oldValue, Get(newData, field, JString("")))
  }

  /** One entry per key of `old_data`, in its order. */
  function Changes(oldData: JsonObject, newData: JsonObject): (cs: seq<Change>)
    ensures |cs| == |oldData|
    ensures forall i :: 0 <= i < |oldData| ==> cs[i].field == DisplayName(oldData[i].0) && cs[i].oldValue == oldData[i].1
    ensures forall i :: 0 <= i < |oldData| && !HasKey(newData, oldData[i].0) ==> cs[i].newValue == JString("")
  {
    seq(|oldData|, i requires 0 <= i < |oldData| => ChangeFor(oldData[i].0, oldData[i].1, newData))
  }

  /** The loop that appends one entry per item of `old_data`. */
  method BuildChanges(oldData: JsonObject, newData: JsonObject) returns (changes: seq<Change>)
    ensures changes == Changes(oldData, newData)
  {
    changes := [];
    var i := 0;
    while i < |oldData|
      invariant 0 <= i <= |oldData|
      invariant |changes| == i
      invariant forall k :: 0 <= k < i ==> changes[k] == ChangeFor(oldData[k].0, oldData[k].1, newData)
    {
      var (field, oldValue) := oldData[i];
      var newValue := Get(newData, field, JString(""));
      assert Change(DisplayName(field), oldValue, newValue) == ChangeFor(oldData[i].0, oldData[i].1, newData);
      changes := changes + [Change(DisplayName(field), oldValue, newValue)];
      i := i + 1;
    }
  }

  /**
   * `send_lecturer_email_for_result_modification`, up to the change list it hands to the
   * e-mail template: nothing unless the log row was just created.
   */
  method SendLecturerEmailForResultModification(created: bool, instance: ModificationLog)
    returns (changes: Option<seq<Change>>)
    ensures !created ==> changes == None
    ensures created ==> changes == Some(Changes(instance.oldData, instance.newData))
  {
    if !created {
      return None;
    }
    var list := BuildChanges(instance.oldData, instance.newData);
    changes := Some(list);
  }

  // ---------------------------------------------------------------------------
  // Properties of the change list

  /** A key present in `new_data` shows the value stored there as its new value. */
  lemma NewValueOrEmpty(oldData: JsonObject, newData: JsonObject, i: nat)
    requires i < |oldData|
    ensures forall j :: 0 <= j < |newData| && newData[j].0 == oldData[i].0 ==>
              Changes(oldData, newData)[i].newValue == newData[j].1
  {
  }

  /** Keys found only in `new_data` make no entry: two `new_data` that agree on the keys of `old_data` give the same list. */
  lemma NewOnlyKeysIgnored(oldData: JsonObject, newData: JsonObject, newData': JsonObject)
    requires forall i :: 0 <= i < |oldData| ==>
               Get(newData, oldData[i].0, JString("")) == Get(newData', oldData[i].0, JString(""))
    ensures Changes(oldData, newData) == Changes(oldData, newData')
  {
  }

  /** The five marks get their fixed labels. */
  lemma MarkFieldLabels()
    ensures DisplayName("ca_slot1") == "CA Slot 1" && DisplayName("ca_slot2") == "CA Slot 2"
    ensures DisplayName("ca_slot3") == "CA Slot 3" && DisplayName("ca_slot4") == "CA Slot 4"
    ensures DisplayName("exam_mark") == "Exam Mark"
  {
  }

  /** Any other field name is shown with spaces for underscores, title-cased. */
  lemma OtherFieldLabel(field: string)
    requires !IsMarkField(field)
    ensures DisplayName(field) == Title(Replace(field, '_', ' '))
  {
  }

  /** Such a label is already in title case: title-casing it again changes nothing. */
  lemma OtherFieldLabelIsTitled(field: string)
    requires !IsMarkField(field)
    ensures Title(DisplayName(field)) == DisplayName(field)
  {
    TitleIdempotent(Replace(field, '_', ' '));
  }
}
