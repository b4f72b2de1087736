/**
 * Small rules of lib.php: the normalisation of the entry limit and the
 * grade when an instance is saved, the grade-item parameters, the
 * completion state, and the feature-support table.
 */
module LibRules {
  import opened Optional

  // ---------------------------------------------------------------------
  // maxentries

  /**
   * `dataform_add_instance`: an unset value or one below -1 becomes -1
   * (unlimited); a site limit of 0 forces 0; a positive site limit replaces
   * any value above it or below 0.
   */
  function AddMaxEntries(value: Option<int>, siteLimit: int): (m: int)
    ensures siteLimit == 0 ==> m == 0
    ensures siteLimit > 0 ==> 0 <= m <= siteLimit
    ensures siteLimit > 0 && value.Some? && 0 <= value.value <= siteLimit ==> m == value.value
    ensures siteLimit > 0 && (value.None? || value.value < 0 || value.value > siteLimit) ==> m == siteLimit
    ensures siteLimit < 0 ==> m >= -1
    ensures siteLimit < 0 && value.Some? && value.value >= -1 ==> m == value.value
    ensures siteLimit < 0 && (value.None? || value.value < -1) ==> m == -1
  {
    var v := if value.None? || value.value < -1 then -1 else value.value;
    if siteLimit == 0 then 0
    else if siteLimit > 0 && (v > siteLimit || v < 0) then siteLimit
    else v
  }

  /**
   * `dataform_update_instance`: the same rules checked in a different order
   * (site limit 0, then positive site limit, then below -1).
   */
  function UpdateMaxEntries(value: int, siteLimit: int): (m: int)
    ensures siteLimit == 0 ==> m == 0
    ensures siteLimit > 0 ==> 0 <= m <= siteLimit
    ensures siteLimit > 0 && 0 <= value <= siteLimit ==> m == value
    ensures siteLimit > 0 && (value < 0 || value > siteLimit) ==> m == siteLimit
    ensures siteLimit < 0 ==> m >= -1
    ensures siteLimit < 0 && value >= -1 ==> m == value
    ensures siteLimit < 0 && value < -1 ==> m == -1
  {
    if siteLimit == 0 then 0
    else if siteLimit > 0 && (value > siteLimit || value < 0) then siteLimit
    else if value < -1 then -1
    else value
  }

  /** Adding and updating agree on every submitted value and every site limit. */
  lemma AddUpdateAgree(value: int, siteLimit: int)
    ensures AddMaxEntries(Some(value), siteLimit) == UpdateMaxEntries(value, siteLimit)
  {
  }

  /** Normalising twice changes nothing: a saved limit survives being saved again. */
  lemma UpdateIdempotent(value: int, siteLimit: int)
    ensures UpdateMaxEntries(UpdateMaxEntries(value, siteLimit), siteLimit) == UpdateMaxEntries(value, siteLimit)
  {
  }

  // ---------------------------------------------------------------------
  // grade

  /** The grade settings of an instance: the grade (0 none, >0 points, <0 scale id) and its calculation. */
  datatype GradeSettings = GradeSettings(grade: int, gradecalc: Option<string>)

  /** `if (empty($data->grade))`: an unset or zero grade becomes 0 and drops its calculation. */
  function NormaliseGrade(grade: Option<int>, gradecalc: Option<string>): (g: GradeSettings)
    ensures grade.None? || grade.value == 0 ==> g == GradeSettings(0, None)
    ensures grade.Some? && grade.value != 0 ==> g == GradeSettings(grade.value, gradecalc)
  {
    if grade.None? || grade.value == 0 then GradeSettings(0, None) else GradeSettings(grade.value, gradecalc)
  }

  datatype GradeType = GradeNone | GradeValue | GradeScale

  /** The parameters `dataform_grade_item_update` hands to the gradebook; an absent key is None. */
  datatype GradeItemParams = GradeItemParams(
    itemname: string,
    idnumber: Option<string>,
    gradetype: GradeType,
    grademax: Option<int>,
    grademin: Option<int>,
    scaleid: Option<int>,
    reset: bool)

  /** The `$grades` argument: the string 'reset', or grades (absent or given). */
  datatype GradesArg = ResetGrades | Grades(grades: Option<seq<(int, int)>>)

  /** The parameters and the grades passed on; 'reset' passes no grades. */
  function GradeItemUpdate(name: string, cmidnumber: Option<string>, grade: int, grades: GradesArg)
    : (r: (GradeItemParams, Option<seq<(int, int)>>))
    ensures r.0.itemname == name && r.0.idnumber == cmidnumber
    ensures r.0.reset <==> grades.ResetGrades?
    ensures grades.ResetGrades? ==> r.1.None?
    ensures grades.Grades? ==> r.1 == grades.grades
  {
    var base := GradeItemParams(name, cmidnumber, GradeNone, None, None, None, false);
    var typed :=
      if grade == 0 then base
      else if grade > 0 then base.(gradetype := GradeValue, grademax := Some(grade), grademin := Some(0))
      else base.(gradetype := GradeScale, scaleid := Some(-grade));
    match grades
    case ResetGrades => (typed.(reset := true), None)
    case Grades(g) => (typed, g)
  }

  /**
   * The grade selects the gradebook item type: 0 none; a positive grade is
   * a point scale from 0 to the grade; a negative grade names the scale
   * whose id is its negation.
   */
  lemma GradeTypeSelection(name: string, cmidnumber: Option<string>, grade: int, grades: GradesArg)
    ensures var p := GradeItemUpdate(name, cmidnumber, grade, grades).0;
      && (grade == 0 <==> p.gradetype == GradeNone)
      && (grade > 0 <==> p.gradetype == GradeValue)
      && (grade < 0 <==> p.gradetype == GradeScale)
      && (grade > 0 ==> p.grademax == Some(grade) && p.grademin == Some(0) && p.scaleid.None?)
      && (grade < 0 ==> p.scaleid == Some(-grade) && p.grademax.None? && p.grademin.None?)
      && (grade == 0 ==> p.grademax.None? && p.grademin.None? && p.scaleid.None?)
  {
  }

  /** A non-zero grade can be read back from the parameters. */
  lemma GradeRecoverable(name: string, cmidnumber: Option<string>, grade: int, grades: GradesArg)
    requires grade != 0
    ensures var p := GradeItemUpdate(name, cmidnumber, grade, grades).0;
      (if p.gradetype == GradeValue then p.grademax.value else -p.scaleid.value) == grade
  {
  }

  // ---------------------------------------------------------------------
  // completion

  /** Moodle's COMPLETION_AND: an AND combination is asked for with `true`. */
  const CompletionAnd: bool := true

  /** The stored activity record, as far as completion reads it. */
  datatype DataformRecord = DataformRecord(id: int, completionentries: int)

  /**
   * `dataform_get_completion_state`: a missing record is an error; without
   * an entries condition the result is `type`; otherwise `type` is combined
   * with "the user has at least the required number of entries", by AND
   * when `type` asks for AND and by OR otherwise. `count` is the number of
   * the user's entries.
   */
  function CompletionState(record: Option<DataformRecord>, count: int, ctype: bool): (r: Result<bool>)
    ensures record.None? <==> r.Error?
    ensures record.Some? && record.value.completionentries == 0 ==> r == Ok(ctype)
  {
    match record
    case None => Error("Can't find dataform")
    case Some(df) =>
      if df.completionentries == 0 then Ok(ctype)
      else
        var value := count >= df.completionentries;
        if ctype == CompletionAnd then Ok(ctype && value) else Ok(ctype || value)
  }

  /**
   * With an entries condition the combination collapses: AND with true and
   * OR with false both leave the condition itself.
   */
  lemma CompletionCollapses(df: DataformRecord, count: int, ctype: bool)
    requires df.completionentries != 0
    ensures CompletionState(Some(df), count, ctype) == Ok(count >= df.completionentries)
  {
  }

  /** Completion is monotone in the number of entries. */
  lemma CompletionMonotone(df: DataformRecord, c1: int, c2: int, ctype: bool)
    requires c1 <= c2 && CompletionState(Some(df), c1, ctype) == Ok(true)
    ensures CompletionState(Some(df), c2, ctype) == Ok(true)
  {
  }

  // ---------------------------------------------------------------------
  // supports

  /** The FEATURE_* names the module answers for; any other feature is `Other`. */
  datatype Feature =
    | Groups | Groupings | GroupMembersOnly | ModIntro | ShowDescription
    | CompletionTracksViews | CompletionHasRules | GradeHasGrade | AdvancedGrading
    | GradeOutcomes | BackupMoodle2
    | Other(name: string)

  /** `dataform_supports`: true for each listed feature, null (None) for anything else. */
  function Supports(f: Feature): (r: Option<bool>)
    ensures r != Some(false)
    ensures r.Some? <==> !f.Other?
  {
    match f
    case Groups => Some(true)
    case Groupings => Some(true)
    case GroupMembersOnly => Some(true)
    case ModIntro => Some(true)
    case ShowDescription => Some(true)
    case CompletionTracksViews => Some(true)
    case CompletionHasRules => Some(true)
    case GradeHasGrade => Some(true)
    case AdvancedGrading => Some(true)
    case GradeOutcomes => Some(true)
    case BackupMoodle2 => Some(true)
    case Other(_) => None
  }

  /** The eleven supported features. */
  const SupportedFeatures: set<Feature> := {
    Groups, Groupings, GroupMembersOnly, ModIntro, ShowDescription,
    CompletionTracksViews, CompletionHasRules, GradeHasGrade, AdvancedGrading,
    GradeOutcomes, BackupMoodle2 }

  /** The table answers true for exactly the eleven listed features. */
  lemma SupportsExactly(f: Feature)
    ensures Supports(f) == Some(true) <==> f in SupportedFeatures
    ensures |SupportedFeatures| == 11
  {
  }
}
