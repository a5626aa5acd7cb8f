/** Facts about the titles and descriptions of the sample jobs, one text and one query at a time. */
module SampleTexts {
  import opened Text
  import opened FindWork

  // The joined word lists of the titles are the titles shown on the page, character for character.

  lemma CleaningTitleAsOnPage()
    ensures CleaningTitle == "House Cleaning - 3 Bedroom Home"
  {
  }

  lemma TutoringTitleAsOnPage()
    ensures TutoringTitle == "Mathematics Tutoring - Grade 10"
  {
  }

  lemma GardeningTitleAsOnPage()
    ensures GardeningTitle == "Garden Maintenance"
  {
  }

  // A text that includes a query is shown by the word where it occurs; a text that does
  // not is shown word by word, each word lacking one letter of the query in both cases.

  lemma MathInTutoringTitle()
    ensures Includes(Lower(TutoringTitle), "math")
  {
    LowerIncludesAt("Mathematics", "math", 0);
    IncludedInLowerWords(TutoringTitleWords, 0, "math");
  }

  lemma CleaningInCleaningTitle()
    ensures Includes(Lower(CleaningTitle), "cleaning")
  {
    LowerIncludesAt("Cleaning", "cleaning", 0);
    IncludedInLowerWords(CleaningTitleWords, 1, "cleaning");
  }

  lemma MathNotInCleaningTitle()
    ensures !Includes(Lower(CleaningTitle), "math")
  {
    NotIncludedInLowerWords(CleaningTitleWords, "math", ['m', 'm', 'm', 'm', 'a', 'a']);
  }

  lemma MathNotInCleaningDescription()
    ensures !Includes(Lower(CleaningDescription), "math")
  {
    NotIncludedInLowerWords(CleaningDescriptionWords, "math", ['m', 'm', 'm', 'm', 'm', 'a', 'a', 'a', 'm', 'm', 'm', 'm']);
  }

  lemma MathNotInGardeningTitle()
    ensures !Includes(Lower(GardeningTitle), "math")
  {
    NotIncludedInLowerWords(GardeningTitleWords, "math", ['m', 'h']);
  }

  lemma MathNotInGardeningDescription()
    ensures !Includes(Lower(GardeningDescription), "math")
  {
    NotIncludedInLowerWords(GardeningDescriptionWords, "math", ['m', 'm', 'h', 'm', 'a', 'm', 'm', 'm', 'm']);
  }

  lemma CleaningNotInTutoringTitle()
    ensures !Includes(Lower(TutoringTitle), "cleaning")
  {
    NotIncludedInLowerWords(TutoringTitleWords, "cleaning", ['l', 'c', 'c', 'c', 'c']);
  }

  lemma CleaningNotInTutoringDescription()
    ensures !Includes(Lower(TutoringDescription), "cleaning")
  {
    NotIncludedInLowerWords(TutoringDescriptionWords, "cleaning", ['c', 'c', 'c', 'c', 'c', 'c', 'c', 'c', 'c', 'c', 'c', 'c', 'l']);
  }

  lemma CleaningNotInGardeningTitle()
    ensures !Includes(Lower(GardeningTitle), "cleaning")
  {
    NotIncludedInLowerWords(GardeningTitleWords, "cleaning", ['c', 'l']);
  }

  lemma CleaningNotInGardeningDescription()
    ensures !Includes(Lower(GardeningDescription), "cleaning")
  {
    NotIncludedInLowerWords(GardeningDescriptionWords, "cleaning", ['c', 'c', 'l', 'c', 'c', 'c', 'c', 'c', 'c']);
  }

  lemma UnknownQueryNotInCleaningTitle()
    ensures !Includes(Lower(CleaningTitle), "zzz")
  {
    NotIncludedInLowerWords(CleaningTitleWords, "zzz", ['z', 'z', 'z', 'z', 'z', 'z']);
  }

  lemma UnknownQueryNotInCleaningDescription()
    ensures !Includes(Lower(CleaningDescription), "zzz")
  {
    NotIncludedInLowerWords(CleaningDescriptionWords, "zzz", ['z', 'z', 'z', 'z', 'z', 'z', 'z', 'z', 'z', 'z', 'z', 'z']);
  }

  lemma UnknownQueryNotInTutoringTitle()
    ensures !Includes(Lower(TutoringTitle), "zzz")
  {
    NotIncludedInLowerWords(TutoringTitleWords, "zzz", ['z', 'z', 'z', 'z', 'z']);
  }

  lemma UnknownQueryNotInTutoringDescription()
    ensures !Includes(Lower(TutoringDescription), "zzz")
  {
    NotIncludedInLowerWords(TutoringDescriptionWords, "zzz", ['z', 'z', 'z', 'z', 'z', 'z', 'z', 'z', 'z', 'z', 'z', 'z', 'z']);
  }

  lemma UnknownQueryNotInGardeningTitle()
    ensures !Includes(Lower(GardeningTitle), "zzz")
  {
    NotIncludedInLowerWords(GardeningTitleWords, "zzz", ['z', 'z']);
  }

  lemma UnknownQueryNotInGardeningDescription()
    ensures !Includes(Lower(GardeningDescription), "zzz")
  {
    NotIncludedInLowerWords(GardeningDescriptionWords, "zzz", ['z', 'z', 'z', 'z', 'z', 'z', 'z', 'z', 'z']);
  }
}
