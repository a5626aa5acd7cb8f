/** The filter applied to the page's sample jobs, for concrete selections. */
module FindWorkScenarios {
  import opened Text
  import opened FindWork
  import opened SampleTexts

  /** Query "math" over all categories lists only job 2, "Mathematics Tutoring - Grade 10". */
  lemma MathListsTutoringOnly()
    ensures Filter(SampleJobs, "math", "all") == [TutoringJob]
    ensures TutoringJob.id == 2
  {
    FilterOfThree(CleaningJob, TutoringJob, GardeningJob, "math", "all");
    MathMissesCleaningJob();
    MathFindsTutoringJob();
    MathMissesGardeningJob();
  }

  /** An upper-case query matches case-insensitively: "CLEANING" lists only job 1, the cleaning job. */
  lemma UpperCaseQueryListsCleaningOnly()
    ensures Filter(SampleJobs, "CLEANING", "all") == [CleaningJob]
    ensures CleaningJob.id == 1 && CleaningJob.category == "Cleaning"
  {
    FilterOfThree(CleaningJob, TutoringJob, GardeningJob, "CLEANING", "all");
    CleaningFindsCleaningJob();
    CleaningMissesTutoringJob();
    CleaningMissesGardeningJob();
  }

  /** A query found in no title and no description lists nothing. */
  lemma UnknownQueryListsNothing()
    ensures Filter(SampleJobs, "zzz", "all") == []
  {
    UnknownQueryMissesCleaningJob();
    UnknownQueryMissesTutoringJob();
    UnknownQueryMissesGardeningJob();
    NoneOfThreeListed(CleaningJob, TutoringJob, GardeningJob, "zzz", "all");
  }

  /** The empty query with the selector value "gardening" lists only job 3, the gardening job. */
  lemma GardeningListsGardenOnly()
    ensures Filter(SampleJobs, "", "gardening") == [GardeningJob]
    ensures GardeningJob.id == 3
  {
    FilterOfThree(CleaningJob, TutoringJob, GardeningJob, "", "gardening");
    GardeningSkipsCleaningJob();
    GardeningSkipsTutoringJob();
    GardeningKeepsGardeningJob();
  }

  /** The selection is not lower-cased, so "Gardening" (capitalised) lists nothing. */
  lemma CapitalisedCategoryListsNothing()
    ensures Filter(SampleJobs, "", "Gardening") == []
  {
    assert IsUpper("Gardening"[0]);
    UpperCaseSelectionListsNothing(SampleJobs, "", "Gardening");
  }

  /** Filtering three jobs, spelled out. */
  lemma FilterOfThree(a: Job, b: Job, c: Job, searchQuery: string, category: string)
    ensures Filter([a, b, c], searchQuery, category)
         == (if Listed(a, searchQuery, category) then [a] else [])
          + (if Listed(b, searchQuery, category) then [b] else [])
          + (if Listed(c, searchQuery, category) then [c] else [])
  {
    assert [a, b, c][1..] == [b, c];
    assert [b, c][1..] == [c];
    assert [c][1..] == [];
    assert Filter([c], searchQuery, category) == (if Listed(c, searchQuery, category) then [c] else []);
  }

  /** Filtering three jobs none of which passes both tests lists nothing. */
  lemma NoneOfThreeListed(a: Job, b: Job, c: Job, searchQuery: string, category: string)
    requires !Listed(a, searchQuery, category) && !Listed(b, searchQuery, category) && !Listed(c, searchQuery, category)
    ensures Filter([a, b, c], searchQuery, category) == []
  {
    FilterOfThree(a, b, c, searchQuery, category);
  }

  // The category test on each sample job, for the selector value "gardening".

  lemma GardeningSkipsCleaningJob()
    ensures !MatchesCategory(CleaningJob, "gardening")
  {
    assert CleaningJob.category == "Cleaning";
    assert Lower("Cleaning")[0] == 'c' != "gardening"[0];
  }

  lemma GardeningSkipsTutoringJob()
    ensures !MatchesCategory(TutoringJob, "gardening")
  {
    assert TutoringJob.category == "Tutoring";
    assert Lower("Tutoring")[0] == 't' != "gardening"[0];
  }

  lemma GardeningKeepsGardeningJob()
    ensures Listed(GardeningJob, "", "gardening")
  {
    EmptyQueryMatches(GardeningJob);
    assert Lower("Gardening") == "gardening";
  }

  // The text test on each sample job, for the queries above; a job that fails it is not
  // listed under the category "all".

  lemma MathMissesCleaningJob()
    ensures !Listed(CleaningJob, "math", "all")
  {
    assert Lower("math") == "math";
    MathNotInCleaningTitle();
    MathNotInCleaningDescription();
  }

  lemma MathFindsTutoringJob()
    ensures MatchesSearch(TutoringJob, "math")
  {
    assert Lower("math") == "math";
    MathInTutoringTitle();
  }

  lemma MathMissesGardeningJob()
    ensures !Listed(GardeningJob, "math", "all")
  {
    assert Lower("math") == "math";
    MathNotInGardeningTitle();
    MathNotInGardeningDescription();
  }

  lemma CleaningFindsCleaningJob()
    ensures MatchesSearch(CleaningJob, "CLEANING")
  {
    assert Lower("CLEANING") == "cleaning";
    CleaningInCleaningTitle();
  }

  lemma CleaningMissesTutoringJob()
    ensures !Listed(TutoringJob, "CLEANING", "all")
  {
    assert Lower("CLEANING") == "cleaning";
    CleaningNotInTutoringTitle();
    CleaningNotInTutoringDescription();
  }

  lemma CleaningMissesGardeningJob()
    ensures !Listed(GardeningJob, "CLEANING", "all")
  {
    assert Lower("CLEANING") == "cleaning";
    CleaningNotInGardeningTitle();
    CleaningNotInGardeningDescription();
  }

  lemma UnknownQueryMissesCleaningJob()
    ensures !Listed(CleaningJob, "zzz", "all")
  {
    assert Lower("zzz") == "zzz";
    UnknownQueryNotInCleaningTitle();
    UnknownQueryNotInCleaningDescription();
  }

  lemma UnknownQueryMissesTutoringJob()
    ensures !Listed(TutoringJob, "zzz", "all")
  {
    assert Lower("zzz") == "zzz";
    UnknownQueryNotInTutoringTitle();
    UnknownQueryNotInTutoringDescription();
  }

  lemma UnknownQueryMissesGardeningJob()
    ensures !Listed(GardeningJob, "zzz", "all")
  {
    assert Lower("zzz") == "zzz";
    UnknownQueryNotInGardeningTitle();
    UnknownQueryNotInGardeningDescription();
  }
}
