/**
 * The job search of the "Find Work" page: the sample job list, the page's three
 * selections (search text, category, rate type) and the filter that decides
 * which jobs are listed.
 */
module FindWork {
  import opened Text
  import opened Sequences

  /** One job posting, with every field the page shows. */
  datatype Job = Job(
    id: int,
    title: string,
    category: string,
    rate: string,
    location: string,
    postedBy: string,
    verified: bool,
    description: string,
    postedTime: string)

  /** Text test: the lower-cased title or the lower-cased description contains the lower-cased query. */
  predicate MatchesSearch(job: Job, searchQuery: string) {
    Includes(Lower(job.title), Lower(searchQuery)) || Includes(Lower(job.description), Lower(searchQuery))
  }

  /** The text test holds exactly when the lower-cased query occurs in the lower-cased title or description. */
  lemma MatchesSearchIsSubstring(job: Job, searchQuery: string)
    ensures MatchesSearch(job, searchQuery)
        <==> (IsSubstring(Lower(searchQuery), Lower(job.title))
              || IsSubstring(Lower(searchQuery), Lower(job.description)))
  {
    IncludesIsSubstring(Lower(job.title), Lower(searchQuery));
    IncludesIsSubstring(Lower(job.description), Lower(searchQuery));
  }

  /**
   * Category test: the selection is the wildcard "all", or the lower-cased category
   * of the job equals the selection as it stands (the selection is not lower-cased).
   */
  predicate MatchesCategory(job: Job, category: string): (r: bool)
    ensures category == "all" ==> r
    ensures r && category != "all" ==> |category| == |job.category|
    ensures r && category != "all" ==> forall i :: 0 <= i < |category| ==> !IsUpper(category[i])
  {
    category == "all" || Lower(job.category) == category
  }

  /**
   * For a selection other than "all" without capitals, the category test passes exactly
   * when the selection and the job's category agree position by position, case ignored.
   */
  lemma MatchesCategoryIgnoringCase(job: Job, category: string)
    requires category != "all"
    requires forall i :: 0 <= i < |category| ==> !IsUpper(category[i])
    ensures MatchesCategory(job, category)
        <==> (|category| == |job.category|
              && forall i :: 0 <= i < |category| ==> UpperChar(category[i]) == UpperChar(job.category[i]))
  {
    LowerFixed(category);
    LowerEqualIgnoringCase(job.category, category);
  }

  /** A job is listed when it passes both tests. */
  predicate Listed(job: Job, searchQuery: string, category: string): (r: bool)
    ensures searchQuery == "" && category == "all" ==> r
    ensures r ==> |searchQuery| <= |job.title| || |searchQuery| <= |job.description|
  {
    MatchesSearch(job, searchQuery) && MatchesCategory(job, category)
  }

  /** The jobs that pass both tests, in their original order. */
  function Filter(jobs: seq<Job>, searchQuery: string, category: string): (r: seq<Job>)
    ensures |r| <= |jobs|
    ensures IsSubsequence(r, jobs)
    ensures forall j :: j in r <==> j in jobs && Listed(j, searchQuery, category)
  {
    if jobs == [] then []
    else if Listed(jobs[0], searchQuery, category) then [jobs[0]] + Filter(jobs[1..], searchQuery, category)
    else Filter(jobs[1..], searchQuery, category)
  }

  /** Nothing is deduplicated: a listed job appears as often as in the input, any other job not at all. */
  lemma {:induction false} FilterMultiplicity(jobs: seq<Job>, searchQuery: string, category: string, j: Job)
    ensures multiset(Filter(jobs, searchQuery, category))[j]
            == if Listed(j, searchQuery, category) then multiset(jobs)[j] else 0
  {
    if jobs != [] {
      FilterMultiplicity(jobs[1..], searchQuery, category, j);
      assert jobs == [jobs[0]] + jobs[1..];
    }
  }

  /** Filtering a list in which every job passes both tests gives back the list. */
  lemma {:induction false} FilterKeepsAll(jobs: seq<Job>, searchQuery: string, category: string)
    requires forall j :: j in jobs ==> Listed(j, searchQuery, category)
    ensures Filter(jobs, searchQuery, category) == jobs
  {
    if jobs != [] {
      FilterKeepsAll(jobs[1..], searchQuery, category);
    }
  }

  /** Filtering the result again with the same selections changes nothing. */
  lemma {:induction false} FilterIdempotent(jobs: seq<Job>, searchQuery: string, category: string)
    ensures Filter(Filter(jobs, searchQuery, category), searchQuery, category)
            == Filter(jobs, searchQuery, category)
  {
    FilterKeepsAll(Filter(jobs, searchQuery, category), searchQuery, category);
  }

  /** The empty query matches every job. */
  lemma EmptyQueryMatches(job: Job)
    ensures MatchesSearch(job, "")
  {
    assert Lower("") == [];
    IncludesEmpty(Lower(job.title));
  }

  /** With an empty query and the wildcard category, every job is listed, in order. */
  lemma {:induction false} EmptyQueryAllCategoriesListsAll(jobs: seq<Job>)
    ensures Filter(jobs, "", "all") == jobs
  {
    forall j | j in jobs
      ensures Listed(j, "", "all")
    {
      EmptyQueryMatches(j);
    }
    FilterKeepsAll(jobs, "", "all");
  }

  /** With an empty query, a job is listed exactly when it passes the category test. */
  lemma {:induction false} EmptyQueryFiltersByCategoryOnly(jobs: seq<Job>, category: string)
    ensures forall j :: j in Filter(jobs, "", category) <==> j in jobs && MatchesCategory(j, category)
  {
    forall j | j in jobs
      ensures MatchesSearch(j, "")
    {
      EmptyQueryMatches(j);
    }
  }

  /** With the wildcard category, a job is listed exactly when it passes the text test. */
  lemma AllCategoriesFiltersBySearchOnly(jobs: seq<Job>, searchQuery: string)
    ensures forall j :: j in Filter(jobs, searchQuery, "all") <==> j in jobs && MatchesSearch(j, searchQuery)
  {
  }

  /** The search ignores case: queries with the same lower-case form list the same jobs. */
  lemma {:induction false} SearchIsCaseInsensitive(jobs: seq<Job>, query1: string, query2: string, category: string)
    requires Lower(query1) == Lower(query2)
    ensures Filter(jobs, query1, category) == Filter(jobs, query2, category)
  {
    if jobs != [] {
      SearchIsCaseInsensitive(jobs[1..], query1, query2, category);
    }
  }

  /**
   * Since the selection is compared without lower-casing it, a selection other than
   * "all" that holds an upper-case letter lists no job at all.
   */
  lemma {:induction false} UpperCaseSelectionListsNothing(jobs: seq<Job>, searchQuery: string, category: string)
    requires category != "all"
    requires exists i :: 0 <= i < |category| && IsUpper(category[i])
    ensures Filter(jobs, searchQuery, category) == []
  {
    if jobs != [] {
      UpperCaseSelectionListsNothing(jobs[1..], searchQuery, category);
    }
  }

  /** The values the category selector emits. */
  const CategoryOptions: seq<string> :=
    ["all", "cleaning", "tutoring", "gardening", "dog-walking", "babysitting", "laundry", "recycling"]

  /** The labels the category selector shows next to each non-wildcard value. */
  const CategoryLabels: seq<string> :=
    ["Cleaning", "Tutoring", "Gardening", "Dog Walking", "Babysitting", "Laundry", "Recycling"]

  /**
   * The lower-case form of every selector label is a selector value, except for
   * "Dog Walking": its lower-case form "dog walking" differs from the value "dog-walking".
   */
  lemma SelectorReachesCategories()
    ensures forall k :: 0 <= k < |CategoryLabels| ==>
              (Lower(CategoryLabels[k]) in CategoryOptions <==> CategoryLabels[k] != "Dog Walking")
  {
    assert Lower("Cleaning") == "cleaning";
    assert Lower("Tutoring") == "tutoring";
    assert Lower("Gardening") == "gardening";
    assert Lower("Dog Walking") == "dog walking";
    assert Lower("Babysitting") == "babysitting";
    assert Lower("Laundry") == "laundry";
    assert Lower("Recycling") == "recycling";
  }

  /** The selector value "dog-walking" never passes the category test of a "Dog Walking" job. */
  lemma DogWalkingSelectionMissesDogWalkingJob(job: Job)
    requires job.category == "Dog Walking"
    ensures !MatchesCategory(job, "dog-walking")
  {
    assert Lower("Dog Walking")[3] == ' ' != "dog-walking"[3];
  }

  /**
   * Every other label is reached: a job whose category is a selector label other than
   * "Dog Walking" passes the category test for the selector value offered with that label.
   */
  lemma SelectorValueMatchesLabel(job: Job, k: nat)
    requires k < |CategoryLabels| && k != 3
    requires job.category == CategoryLabels[k]
    ensures MatchesCategory(job, CategoryOptions[k + 1])
  {
    if k == 0 {
      assert Lower("Cleaning") == "cleaning";
    } else if k == 1 {
      assert Lower("Tutoring") == "tutoring";
    } else if k == 2 {
      assert Lower("Gardening") == "gardening";
    } else if k == 4 {
      assert Lower("Babysitting") == "babysitting";
    } else if k == 5 {
      assert Lower("Laundry") == "laundry";
    } else {
      assert Lower("Recycling") == "recycling";
    }
  }

  /** A "Dog Walking" job is listed under no selector value but "all". */
  lemma DogWalkingOnlyUnderAll(jobs: seq<Job>, searchQuery: string, category: string, job: Job)
    requires job.category == "Dog Walking"
    requires category in CategoryOptions
    requires job in Filter(jobs, searchQuery, category)
    ensures category == "all"
  {
    SelectorReachesCategories();
    assert CategoryLabels[3] == "Dog Walking";
  }

  /** The sample postings the page lists, in the page's order. */
  const SampleJobs: seq<Job> := [CleaningJob, TutoringJob, GardeningJob]

  const CleaningJob := Job(1, CleaningTitle, "Cleaning", "R150/hour",
    "Soweto, Johannesburg", "Sarah M.", true, CleaningDescription, "2 hours ago")

  const TutoringJob := Job(2, TutoringTitle, "Tutoring", "R200/hour",
    "Khayelitsha, Cape Town", "John D.", true, TutoringDescription, "5 hours ago")

  const GardeningJob := Job(3, GardeningTitle, "Gardening", "R120/hour",
    "Alexandra, Johannesburg", "Linda K.", false, GardeningDescription, "1 day ago")

  // The titles and descriptions of the sample jobs, each written as its words joined
  // by single spaces (the same strings; the split keeps proofs about them small).
  const CleaningTitleWords: seq<string> := ["House", "Cleaning", "-", "3", "Bedroom", "Home"]
  const CleaningTitle := JoinWords(CleaningTitleWords)
  const CleaningDescriptionWords: seq<string> := ["Need", "a", "thorough", "cleaning", "of", "my", "3-bedroom", "home.", "All", "cleaning", "supplies", "provided."]
  const CleaningDescription := JoinWords(CleaningDescriptionWords)
  const TutoringTitleWords: seq<string> := ["Mathematics", "Tutoring", "-", "Grade", "10"]
  const TutoringTitle := JoinWords(TutoringTitleWords)
  const TutoringDescriptionWords: seq<string> := ["Looking", "for", "a", "qualified", "tutor", "to", "help", "my", "son", "with", "Grade", "10", "mathematics."]
  const TutoringDescription := JoinWords(TutoringDescriptionWords)
  const GardeningTitleWords: seq<string> := ["Garden", "Maintenance"]
  const GardeningTitle := JoinWords(GardeningTitleWords)
  const GardeningDescriptionWords: seq<string> := ["Weekly", "garden", "maintenance", "needed.", "Mowing,", "weeding,", "and", "general", "upkeep."]
  const GardeningDescription := JoinWords(GardeningDescriptionWords)

  /** The page's selections: search text, category and rate type. */
  datatype Selections = Selections(searchQuery: string, category: string, rateType: string)

  /** The selections when the page opens. */
  const InitialSelections := Selections("", "all", "all")

  /** The jobs the page lists for the given selections. */
  function FilteredJobs(s: Selections): (r: seq<Job>)
    ensures IsSubsequence(r, SampleJobs)
    ensures forall j :: j in r <==> j in SampleJobs && Listed(j, s.searchQuery, s.category)
  {
    Filter(SampleJobs, s.searchQuery, s.category)
  }

  /** The rate-type selection has no effect on the listed jobs. */
  lemma RateTypeIgnored(s: Selections, rateType: string)
    ensures FilteredJobs(s.(rateType := rateType)) == FilteredJobs(s)
  {
  }

  /** When the page opens, it lists every sample job in order. */
  lemma InitialSelectionsListAll()
    ensures FilteredJobs(InitialSelections) == SampleJobs
  {
    EmptyQueryAllCategoriesListsAll(SampleJobs);
  }
}
