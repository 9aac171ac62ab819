/**
  The competition's exam schedule: a constant table from each of the eight
  category labels (how many parts of the Quran a participant recites) to the
  Gregorian date, Hijri date, time and location of that category's exam, and
  the lookup the page uses to find a record's exam.
 */
module Schedule {
  import opened Wrappers

  datatype ExamInfo = ExamInfo(date: string, hijriDate: string, time: string, location: string)

  datatype ScheduleRow = ScheduleRow(category: string, info: ExamInfo)

  /** The table in declaration order, which is also the order in which the
      page lists it. */
  const ExamSchedule: seq<ScheduleRow> :=
    [
      ScheduleRow("ثلاثة أجزاء",
        ExamInfo("الجمعة، ٨ أغسطس ٢٠٢٥ م", "الجمعة، ٦ صفر ١٤٤٧ هـ", "بعد صلاة الجمعة - ١:٣٠ ظهراً", "دار المناسبات الشرقيه - دمليج")),
      ScheduleRow("خمسة أجزاء",
        ExamInfo("السبت، ٩ أغسطس ٢٠٢٥ م", "السبت، ٧ صفر ١٤٤٧ هـ", "١٢:٠٠ ظهراً", "دار المناسبات الشرقيه - دمليج")),
      ScheduleRow("ثمانية أجزاء",
        ExamInfo("السبت، ٩ أغسطس ٢٠٢٥ م", "السبت، ٧ صفر ١٤٤٧ هـ", "١٢:٠٠ ظهراً", "دار المناسبات الشرقيه - دمليج")),
      ScheduleRow("عشرة أجزاء",
        ExamInfo("الجمعة، ١٥ أغسطس ٢٠٢٥ م", "الجمعة، ١٣ صفر ١٤٤٧ هـ", "بعد صلاة الجمعة - ١:٣٠ ظهراً", "دار المناسبات الشرقيه - دمليج")),
      ScheduleRow("خمسة عشر جزءا",
        ExamInfo("الجمعة، ١٥ أغسطس ٢٠٢٥ م", "الجمعة، ١٣ صفر ١٤٤٧ هـ", "بعد صلاة الجمعة - ١:٣٠ ظهراً", "دار المناسبات الشرقيه - دمليج")),
      ScheduleRow("عشرون جزءا",
        ExamInfo("الجمعة، ١٥ أغسطس ٢٠٢٥ م", "الجمعة، ١٣ صفر ١٤٤٧ هـ", "بعد صلاة الجمعة - ١:٣٠ ظهراً", "دار المناسبات الشرقيه - دمليج")),
      ScheduleRow("خمسة وعشرون جزءا",
        ExamInfo("السبت، ١٦ أغسطس ٢٠٢٥ م", "السبت، ١٤ صفر ١٤٤٧ هـ", "١٢:٠٠ ظهراً", "دار المناسبات الشرقيه - دمليج")),
      ScheduleRow("ثلاثون جزءا",
        ExamInfo("السبت، ١٦ أغسطس ٢٠٢٥ م", "السبت، ١٤ صفر ١٤٤٧ هـ", "١٢:٠٠ ظهراً", "دار المناسبات الشرقيه - دمليج"))
    ]

  /** The statistics the page shows next to the table: the number of
      categories and the number of exam days. */
  const DisplayedCategoryCount := 8
  const DisplayedExamDays := 4

  /** The category labels, the keys of the table. */
  function Labels(rows: seq<ScheduleRow>): set<string> {
    set i | 0 <= i < |rows| :: rows[i].category
  }

  /** The distinct Gregorian dates of the table. */
  function GregorianDates(rows: seq<ScheduleRow>): set<string> {
    set i | 0 <= i < |rows| :: rows[i].info.date
  }

  /** No label occurs twice, so a label names one row. */
  predicate DistinctLabels(rows: seq<ScheduleRow>) {
    forall i, j :: 0 <= i < j < |rows| ==> rows[i].category != rows[j].category
  }

  /** Looks `category` up by exact string equality: a row with that label
      gives the entry, no row gives none. The search takes the first such row;
      a JavaScript object literal with a repeated key would keep the last one,
      which makes no difference here because the table's labels are distinct
      (ScheduleLabelsDistinct). */
  function LookupIn(rows: seq<ScheduleRow>, category: string): (r: Option<ExamInfo>)
    ensures r.None? <==> category !in Labels(rows)
    ensures r.Some? ==> exists i :: 0 <= i < |rows| && rows[i] == ScheduleRow(category, r.value)
    ensures DistinctLabels(rows) ==>
      forall i :: 0 <= i < |rows| && rows[i].category == category ==> r == Some(rows[i].info)
  {
    if |rows| == 0 then None
    else if rows[0].category == category then Some(rows[0].info)
    else
      var r := LookupIn(rows[1..], category);
      assert forall i :: 1 <= i < |rows| ==> rows[i] == rows[1..][i - 1];
      r
  }

  /** getExamInfo: the stored entry of a known label, none for any other string. */
  function GetExamInfo(category: string): (r: Option<ExamInfo>)
    ensures r.None? <==> category !in Labels(ExamSchedule)
    ensures forall i :: 0 <= i < |ExamSchedule| && ExamSchedule[i].category == category ==>
      r == Some(ExamSchedule[i].info)
  {
    ScheduleLabelsDistinct();
    LookupIn(ExamSchedule, category)
  }

  lemma ScheduleLabelsDistinct()
    ensures DistinctLabels(ExamSchedule)
  {
  }

  /** The table agrees with the statistics the page hard-codes: eight
      categories and four exam days. */
  lemma StatisticsMatchSchedule()
    ensures |ExamSchedule| == DisplayedCategoryCount
    ensures |Labels(ExamSchedule)| == DisplayedCategoryCount
    ensures |GregorianDates(ExamSchedule)| == DisplayedExamDays
  {
    ScheduleLabelsDistinct();
    DistinctLabelsCount(ExamSchedule);
    var rows := ExamSchedule;
    // the days of the 3-, 5-, 10- and 25-part exams; every other row shares one of them
    var d0, d1, d2, d3 := rows[0].info.date, rows[1].info.date, rows[3].info.date, rows[6].info.date;
    assert GregorianDates(rows) == {d0, d1, d2, d3};
    assert d0 != d1 && d0 != d2 && d0 != d3 && d1 != d2 && d1 != d3 && d2 != d3;
    FourDistinct(d0, d1, d2, d3);
  }

  lemma FourDistinct<T>(a: T, b: T, c: T, d: T)
    requires a != b && a != c && a != d && b != c && b != d && c != d
    ensures |{a, b, c, d}| == 4
  {
  }

  /** Distinct labels: one label per row. */
  lemma {:induction false} DistinctLabelsCount(rows: seq<ScheduleRow>)
    requires DistinctLabels(rows)
    ensures |Labels(rows)| == |rows|
  {
    if |rows| > 0 {
      var tail := rows[1..];
      DistinctLabelsCount(tail);
      assert Labels(rows) == {rows[0].category} + Labels(tail) by {
        forall c | c in Labels(rows) ensures c in {rows[0].category} + Labels(tail) {
          var i :| 0 <= i < |rows| && rows[i].category == c;
          if i > 0 { assert tail[i - 1] == rows[i]; }
        }
      }
      assert rows[0].category !in Labels(tail);
    }
  }
}
