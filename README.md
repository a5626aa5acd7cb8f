# TownGig "Find Work" job search, modelled in Dafny

The "Find Work" page of TownGig lists gig postings: cleaning, tutoring, gardening and so on.
The visitor narrows the list with three selections:

- a free-text search box;
- a category selector;
- a rate-type selector.

The listing is `jobs.filter(...)`. A job stays when both of these hold:

- its lower-cased title or lower-cased description contains the lower-cased search text;
- the category selection is the wildcard `"all"`, or equals the job's lower-cased category.

The model is purely functional, as the page's filter is.

- `text.dfy` (module `Text`) models `toLowerCase` and `includes`.
  - Lower-casing is ASCII: only 'A'..'Z' change.
  - `Includes` scans start positions from the left, as `includes` does.
  - `Includes` is proved equal to a declarative substring predicate, `IsSubstring`.
  - General lemmas decide inclusion in texts written as words joined by spaces.
- `sequences.dfy` (module `Sequences`) holds order-preserving subsequences, the shape of a `filter` result.
- `find_work.dfy` (module `FindWork`) holds:
  - the `Job` record and the two tests;
  - `Filter`, written recursively over the job list;
  - the selector values and labels;
  - the three sample jobs;
  - the page's selections record, whose rate type the filter never reads;
  - the lemmas about the filter.
- `sample_texts.dfy` (module `SampleTexts`) proves that the three titles, written as joined words, are the page's strings. For each of the search texts "math", "CLEANING" (searched as "cleaning") and "zzz", it proves that every text of a job that is not listed lacks it, and that the listed job's title, if any, contains it.
- `find_work_scenarios.dfy` (module `FindWorkScenarios`) holds what the page lists on its sample data for concrete selections.

The category comparison lower-cases only the job's category, not the selection (`src/pages/FindWork.tsx:55`). The model follows the code. Two consequences are proved:

- a selection containing an upper-case letter lists nothing;
- the selector value `"dog-walking"` can never match a job whose category is `"Dog Walking"`, because that category lower-cases to `"dog walking"`.

## Model

| member | source | states |
|---|---|---|
| FindWork.Filter | src/pages/FindWork.tsx:52-57 | The result is an order-preserving subsequence of the input and no longer than it. A job is in the result exactly when it is in the input and passes both the text test and the category test. |
| FindWork.MatchesSearchIsSubstring | src/pages/FindWork.tsx:53-54 | The text test `MatchesSearch` holds exactly when the lower-cased query occurs at some position of the lower-cased title or of the lower-cased description. |
| FindWork.MatchesCategory | src/pages/FindWork.tsx:55 | The selection "all" passes every job. Any other selection passes only if it is as long as the job's category and holds no upper-case letter, since it is compared with a lower-cased text as it stands. `FindWork.MatchesCategoryIgnoringCase` settles every other selection, and `FindWork.SelectorValueMatchesLabel` gives the passing direction for the selector's values. |
| FindWork.Listed | src/pages/FindWork.tsx:56 | A job is listed when both tests pass. With empty search text and "all", every job is listed. A listed job has a title or a description at least as long as the search text. |
| Text.Lower | src/pages/FindWork.tsx:53-55 | `toLowerCase` keeps the length, leaves no upper-case letter and keeps every other character in place. `Text.LowerEqualIgnoringCase` states which texts share a lower-case form; `Text.LowerFixed` and `Text.LowerIdempotent` state its fixed points. |
| Text.LowerEqualIgnoringCase | src/pages/FindWork.tsx:53-54 | Two texts lower-case to the same text exactly when they have the same length and, position by position, the same character once case is ignored. This is when `FindWork.SearchIsCaseInsensitive` applies. |
| FindWork.MatchesCategoryIgnoringCase | src/pages/FindWork.tsx:55 | A selection other than "all" that holds no capital passes the category test exactly when it has the job category's length and, position by position, the same character once case is ignored. |
| FindWork.SelectorValueMatchesLabel | src/pages/FindWork.tsx:91-97 | A job whose category is a selector label other than "Dog Walking" passes the category test for the value offered with that label ("Cleaning" under "cleaning", and so on). |
| Text.Includes | src/pages/FindWork.tsx:53-54 | `includes` holds whenever the needle is a prefix, and never for a needle longer than the text. `Text.IncludesIsSubstring` ties it to "occurs at some position", in both directions. |
| SampleTexts.CleaningTitleAsOnPage | src/pages/FindWork.tsx:19 | The cleaning job's title, written as joined words, is the page's title string "House Cleaning - 3 Bedroom Home". |
| SampleTexts.TutoringTitleAsOnPage | src/pages/FindWork.tsx:30 | The tutoring job's title, written as joined words, is the page's title string "Mathematics Tutoring - Grade 10". |
| SampleTexts.GardeningTitleAsOnPage | src/pages/FindWork.tsx:41 | The gardening job's title, written as joined words, is the page's title string "Garden Maintenance". |
| FindWork.FilterMultiplicity | src/pages/FindWork.tsx:52-57 | Nothing is deduplicated or invented. A job passing both tests occurs in the result as often as in the input; any other job does not occur. |
| FindWork.FilterKeepsAll | src/pages/FindWork.tsx:52-57 | If every job passes both tests, the result is the whole input, in order. |
| FindWork.FilterIdempotent | src/pages/FindWork.tsx:52-57 | Filtering the listing again with the same selections gives the same listing. |
| FindWork.EmptyQueryMatches | src/pages/FindWork.tsx:53-54 | The empty search text passes the text test of every job. |
| FindWork.EmptyQueryAllCategoriesListsAll | src/pages/FindWork.tsx:53-55 | With empty search text and category "all", every job is listed in its original order. |
| FindWork.EmptyQueryFiltersByCategoryOnly | src/pages/FindWork.tsx:53-56 | With empty search text, a job is listed exactly when it passes the category test. |
| FindWork.AllCategoriesFiltersBySearchOnly | src/pages/FindWork.tsx:55 | With category "all", a job is listed exactly when its lower-cased title or description contains the lower-cased search text. |
| FindWork.SearchIsCaseInsensitive | src/pages/FindWork.tsx:53-54 | Two search texts with the same lower-case form list the same jobs, for any job list and category. |
| FindWork.UpperCaseSelectionListsNothing | src/pages/FindWork.tsx:55 | The selection is not lower-cased. So a selection other than "all" that holds an upper-case letter lists no job. |
| FindWork.SelectorReachesCategories | src/pages/FindWork.tsx:90-97 | The selector's values and labels are the constants `CategoryOptions` and `CategoryLabels`. Every non-wildcard selector label, lower-cased, is one of the selector's values, except "Dog Walking": its lower-case form "dog walking" differs from the value "dog-walking". |
| FindWork.DogWalkingSelectionMissesDogWalkingJob | src/pages/FindWork.tsx:55 | The selection "dog-walking" fails the category test of any job whose category is "Dog Walking". |
| FindWork.DogWalkingOnlyUnderAll | src/pages/FindWork.tsx:55 | Among the selector's values, a "Dog Walking" job is listed only under "all". |
| FindWork.FilteredJobs | src/pages/FindWork.tsx:16-57 | The listing for a set of selections is an order-preserving subsequence of the three sample jobs (the constant `SampleJobs`). It holds exactly the sample jobs that pass both tests. |
| FindWork.RateTypeIgnored | src/pages/FindWork.tsx:13 | Changing only the rate-type selection never changes the listing. |
| FindWork.InitialSelectionsListAll | src/pages/FindWork.tsx:11-13 | With the selections the page opens with (empty text, "all", "all"), all sample jobs are listed in order. |
| FindWorkScenarios.MathListsTutoringOnly | src/pages/FindWork.tsx:28-38 | On the sample jobs, search text "math" with category "all" lists only the job with id 2, the tutoring job. |
| FindWorkScenarios.UpperCaseQueryListsCleaningOnly | src/pages/FindWork.tsx:17-27 | On the sample jobs, search text "CLEANING" lists only the job with id 1, the cleaning job. This shows the search ignores case. |
| FindWorkScenarios.UnknownQueryListsNothing | src/pages/FindWork.tsx:52-57 | On the sample jobs, a search text that appears in no title and no description ("zzz") lists nothing. |
| FindWorkScenarios.GardeningListsGardenOnly | src/pages/FindWork.tsx:39-49 | On the sample jobs, empty search text with category "gardening" lists only the job with id 3, the gardening job. |
| FindWorkScenarios.CapitalisedCategoryListsNothing | src/pages/FindWork.tsx:55 | On the sample jobs, the selection "Gardening" (capitalised) lists nothing, because the selection is compared without lower-casing. |
| Text.IncludesIsSubstring | src/pages/FindWork.tsx:53-54 | The left-to-right search used for `includes` holds exactly when the needle occurs at some position of the text, in both directions. |
| Text.IncludesEmpty | src/pages/FindWork.tsx:53-54 | Every text includes the empty string. |
| Text.LowerIdempotent | src/pages/FindWork.tsx:53-55 | Lower-casing twice is the same as lower-casing once. |
| Text.LowerFixed | src/pages/FindWork.tsx:55 | A text equals its lower-case form exactly when it holds no upper-case letter. |
| Sequences.SubsequenceFacts | src/pages/FindWork.tsx:52 | A subsequence is no longer than its source and holds nothing absent from it. |

## Left out

- Rendering is not modelled: the JSX, the cards, badges, links and styling. This includes the "No jobs found" message shown when the listing is empty. It is presentation.
- The React state hooks and change handlers that hold the selections are not modelled. The selections are plain values: the `Selections` record, or the parameters of `Filter`.
- `src/pages/Index.tsx` is not part of this model. It holds static display data, and its search text is never used in a computation.
- `src/pages/PostJob.tsx` is not part of this model. Its form only copies fields and logs them on submit.
- Text.Lower: `toLowerCase` is modelled for ASCII letters only, because full Unicode case mapping depends on the runtime's tables. The sample texts and the selector values are ASCII. A typed query with non-ASCII letters is lower-cased by the browser but not by the model. For example, the Kelvin sign U+212A becomes 'k' in the browser, so on the page it finds "Looking" and "Weekly"; the model leaves it unchanged and lists nothing for it.
- A missing (null) search text is not modelled. The page always holds a string, starting from the empty string.
- The sample titles and descriptions are written as word lists joined by single spaces (`JoinWords`), which keeps the proofs about them small. The three titles are proved equal to the page's strings. For the three descriptions that equality is not stated: comparing texts of about 75 characters is beyond the solver budget. They hold the page's words in the page's order.
