/**
  Engine: the two course URLs built from the week scope, the choice of the
  local file a downloaded URL is saved to, and the order of the steps of a
  run. The download itself, the file copy and the browser launch are not
  modelled; a run is described by the actions it performs.
 */
module Engine {
  import opened Wrappers
  import opened Calendar
  import opened DateFormat
  import opened WeekScope

  const BaseUrl := "https://www.vfu.bg/ucheben_razpis/files/"
  const FourthCourse := "/inf_4.pdf"
  const SecondCourse := "/inf_2.pdf"
  const LecturesHtml := "http://localhost:63342/Lecturer/resources/lectures.html"

  const SecondCourseFile := "lectures_2nd_course.pdf"
  const FourthCourseFile := "lectures_4th_course.pdf"

  // ---------------------------------------------------------------------
  // Substring test (String.contains)

  /** sub occurs in s starting at index i. */
  ghost predicate OccursAt(s: string, sub: string, i: int)
  {
    0 <= i && i + |sub| <= |s| && s[i..i + |sub|] == sub
  }

  ghost predicate Occurs(s: string, sub: string)
  {
    exists i :: OccursAt(s, sub, i)
  }

  /** String.contains: does sub occur somewhere in s? Tries each start position in turn. */
  function Contains(s: string, sub: string): (b: bool)
    ensures b <==> Occurs(s, sub)
    decreases |s|
  {
    if sub <= s then
      assert OccursAt(s, sub, 0);
      true
    else if |s| == 0 then
      false
    else
      ShiftedOccurrence(s, sub);
      Contains(s[1..], sub)
  }

  /** An occurrence past the first character is an occurrence in the rest of the string. */
  lemma ShiftedOccurrence(s: string, sub: string)
    requires |s| > 0 && !(sub <= s)
    ensures Occurs(s, sub) <==> Occurs(s[1..], sub)
  {
    if Occurs(s, sub) {
      var i :| OccursAt(s, sub, i);
      assert i != 0;
      assert s[1..][i - 1..i - 1 + |sub|] == s[i..i + |sub|];
      assert OccursAt(s[1..], sub, i - 1);
    }
    if Occurs(s[1..], sub) {
      var i :| OccursAt(s[1..], sub, i);
      assert s[i + 1..i + 1 + |sub|] == s[1..][i..i + |sub|];
      assert OccursAt(s, sub, i + 1);
    }
  }

  // ---------------------------------------------------------------------
  // Destination file

  /**
    The file fetchByUrl copies a download to: the second-course file when
    the URL mentions the second-course document, otherwise the
    fourth-course file when it mentions that one, otherwise none.
   */
  function DestinationFile(urlToFetch: string): (r: Option<string>)
    ensures r == Some(SecondCourseFile) <==> Occurs(urlToFetch, SecondCourse)
    ensures r == Some(FourthCourseFile) <==> !Occurs(urlToFetch, SecondCourse) && Occurs(urlToFetch, FourthCourse)
    ensures r == None <==> !Occurs(urlToFetch, SecondCourse) && !Occurs(urlToFetch, FourthCourse)
  {
    if Contains(urlToFetch, SecondCourse) then Some(SecondCourseFile)
    else if Contains(urlToFetch, FourthCourse) then Some(FourthCourseFile)
    else None
  }

  // ---------------------------------------------------------------------
  // Course URLs

  /** BASE_URL + week scope + course document. */
  function CourseUrl(weekScope: string, course: string): (r: string)
    ensures |r| == |BaseUrl| + |weekScope| + |course|
    ensures r[..|BaseUrl|] == BaseUrl
    ensures r[|BaseUrl|..|BaseUrl| + |weekScope|] == weekScope
    ensures r[|BaseUrl| + |weekScope|..] == course
  {
    BaseUrl + weekScope + course
  }

  /** fetchFourthCourse: the fourth-course URL of today's week and the file it is saved to. */
  method FetchFourthCourse(today: Date) returns (urlToFetch: string, destination: Option<string>)
    requires PrintableWeek(today)
    ensures urlToFetch == CourseUrl(WeekScopeText(today), FourthCourse)
    ensures destination == Some(FourthCourseFile)
  {
    var scope := CalcWeekScope(today);
    urlToFetch := BaseUrl + scope + FourthCourse;
    FourthCourseUrlChoosesFourthFile(scope);
    destination := DestinationFile(urlToFetch);
  }

  /** fetchSecondCourse: the second-course URL of today's week and the file it is saved to. */
  method FetchSecondCourse(today: Date) returns (urlToFetch: string, destination: Option<string>)
    requires PrintableWeek(today)
    ensures urlToFetch == CourseUrl(WeekScopeText(today), SecondCourse)
    ensures destination == Some(SecondCourseFile)
  {
    var scope := CalcWeekScope(today);
    urlToFetch := BaseUrl + scope + SecondCourse;
    SecondCourseUrlChoosesSecondFile(scope);
    destination := DestinationFile(urlToFetch);
  }

  /** What a run does, in order. */
  datatype Action =
    | Download(url: string, destination: Option<string>)
    | Browse(page: string)

  /**
    run: fetch the fourth course, then the second course, then open the
    lectures page. Both URLs are built from the same week scope.
   */
  method Run(today: Date) returns (actions: seq<Action>)
    requires PrintableWeek(today)
    ensures |actions| == 3
    ensures actions[0] == Download(CourseUrl(WeekScopeText(today), FourthCourse), Some(FourthCourseFile))
    ensures actions[1] == Download(CourseUrl(WeekScopeText(today), SecondCourse), Some(SecondCourseFile))
    ensures actions[2] == Browse(LecturesHtml)
  {
    var fourthUrl, fourthFile := FetchFourthCourse(today);
    var secondUrl, secondFile := FetchSecondCourse(today);
    actions := [Download(fourthUrl, fourthFile), Download(secondUrl, secondFile), Browse(LecturesHtml)];
  }

  // ---------------------------------------------------------------------
  // Properties of the URLs

  /** In the base URL a '/' is never followed by an 'i'. */
  lemma BaseHasNoSlashI()
    ensures forall j | 0 <= j < |BaseUrl| - 1 :: !(BaseUrl[j] == '/' && BaseUrl[j + 1] == 'i')
  {
  }

  /**
    In a course URL built from a week scope text, the only '/' followed by
    an 'i' is the one that starts the course document.
   */
  lemma SlashIOnlyBeforeCourse(w: string, course: string, i: int)
    requires ScopeText(w) && (course == FourthCourse || course == SecondCourse)
    requires 0 <= i < |CourseUrl(w, course)| - 1
    requires CourseUrl(w, course)[i] == '/' && CourseUrl(w, course)[i + 1] == 'i'
    ensures i == |BaseUrl| + |w|
  {
    var s := CourseUrl(w, course);
    var n := |BaseUrl|;
    if i < n - 1 {
      assert s[i] == BaseUrl[i] && s[i + 1] == BaseUrl[i + 1];
      BaseHasNoSlashI();
    }
  }

  /** The course document occurs in the URL built from it, right after the week scope. */
  lemma CourseOccurs(w: string, course: string)
    ensures OccursAt(CourseUrl(w, course), course, |BaseUrl| + |w|)
  {
    var s := CourseUrl(w, course);
    assert s[|BaseUrl| + |w|..] == course;
  }

  /**
    A fourth-course URL never takes the second-course branch: neither the
    base URL nor a week scope text contains "/inf_2.pdf".
   */
  lemma FourthCourseUrlChoosesFourthFile(w: string)
    requires ScopeText(w)
    ensures !Occurs(CourseUrl(w, FourthCourse), SecondCourse)
    ensures Occurs(CourseUrl(w, FourthCourse), FourthCourse)
    ensures DestinationFile(CourseUrl(w, FourthCourse)) == Some(FourthCourseFile)
  {
    var s := CourseUrl(w, FourthCourse);
    CourseOccurs(w, FourthCourse);
    if Occurs(s, SecondCourse) {
      var i :| OccursAt(s, SecondCourse, i);
      assert s[i] == SecondCourse[0] && s[i + 1] == SecondCourse[1];
      SlashIOnlyBeforeCourse(w, FourthCourse, i);
      assert false;
    }
  }

  /** A second-course URL is saved to the second-course file. */
  lemma SecondCourseUrlChoosesSecondFile(w: string)
    ensures DestinationFile(CourseUrl(w, SecondCourse)) == Some(SecondCourseFile)
  {
    CourseOccurs(w, SecondCourse);
  }

  /**
    The two course URLs of one day agree up to the end of the week scope,
    which is the day's week scope text, and differ only in the document.
   */
  lemma SharedWeekSegment(today: Date)
    requires PrintableWeek(today)
    ensures var w := WeekScopeText(today);
      var a, b := CourseUrl(w, FourthCourse), CourseUrl(w, SecondCourse);
      |a| == |b| == |BaseUrl| + 27
      && a[..|BaseUrl| + 17] == b[..|BaseUrl| + 17] == BaseUrl + w
      && a[|BaseUrl|..|BaseUrl| + 17] == w
      && a[|BaseUrl| + 17..] == FourthCourse && b[|BaseUrl| + 17..] == SecondCourse
  {
    var w := WeekScopeText(today);
    WeekScopeShape(WeekStart(today), WeekEnd(today));
    var a, b := CourseUrl(w, FourthCourse), CourseUrl(w, SecondCourse);
    assert a[..|BaseUrl| + 17] == BaseUrl + w;
    assert b[..|BaseUrl| + 17] == BaseUrl + w;
  }
}
