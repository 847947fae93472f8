/**
 The script's own table of categories, read the other way round: which names lead to a heading.
 */
module ChangelogTable {
  import opened Prelude
  import opened ChangelogDedup
  import opened ChangelogFiling

  /** The names a commit is listed under this heading by. */
  function Names(h: Heading): set<string> {
    match h
    case Breaking => {"break", "breaking"}
    case Features => {"feat", "feature", "add", "added"}
    case BugFixes => {"fix", "fixes", "fixed", "bug", "bugfix"}
    case Performance => {"perf", "performance"}
    case Refactoring =>
      {"impro", "improved", "improvement", "refactor", "refactored", "refactoring", "deprecate", "deprecated", "remove",
       "change", "changed"}
    case Testing => {"test", "tests", "testing"}
    case BuildCI => {"ci", "build"}
    case Documentation => {"docs", "documentation"}
    case Style => {"style"}
    case Chore => {"chore"}
    case Misc => {"misc", "update", "updated"}
  }

  lemma BreakingRows()
    ensures |CATEGORIES| == 36
    ensures CATEGORIES[0] == ("break", Breaking)
    ensures CATEGORIES[1] == ("breaking", Breaking)
  {}

  lemma FeaturesRows()
    ensures |CATEGORIES| == 36
    ensures CATEGORIES[2] == ("feat", Features)
    ensures CATEGORIES[3] == ("feature", Features)
    ensures CATEGORIES[4] == ("add", Features)
    ensures CATEGORIES[5] == ("added", Features)
  {}

  lemma BugFixesRows()
    ensures |CATEGORIES| == 36
    ensures CATEGORIES[6] == ("fix", BugFixes)
    ensures CATEGORIES[7] == ("bug", BugFixes)
    ensures CATEGORIES[8] == ("bugfix", BugFixes)
    ensures CATEGORIES[9] == ("fixed", BugFixes)
    ensures CATEGORIES[10] == ("fixes", BugFixes)
  {}

  lemma PerformanceRows()
    ensures |CATEGORIES| == 36
    ensures CATEGORIES[11] == ("perf", Performance)
    ensures CATEGORIES[12] == ("performance", Performance)
  {}

  lemma ImprovementRows()
    ensures |CATEGORIES| == 36
    ensures CATEGORIES[13] == ("impro", Refactoring)
    ensures CATEGORIES[14] == ("improved", Refactoring)
    ensures CATEGORIES[15] == ("improvement", Refactoring)
  {}

  lemma RefactoringRows()
    ensures |CATEGORIES| == 36
    ensures CATEGORIES[16] == ("refactor", Refactoring)
    ensures CATEGORIES[17] == ("refactored", Refactoring)
    ensures CATEGORIES[18] == ("refactoring", Refactoring)
  {}

  lemma ChangeRows()
    ensures |CATEGORIES| == 36
    ensures CATEGORIES[19] == ("deprecated", Refactoring)
    ensures CATEGORIES[20] == ("deprecate", Refactoring)
    ensures CATEGORIES[21] == ("remove", Refactoring)
    ensures CATEGORIES[22] == ("change", Refactoring)
    ensures CATEGORIES[23] == ("changed", Refactoring)
  {}

  lemma TestingRows()
    ensures |CATEGORIES| == 36
    ensures CATEGORIES[24] == ("test", Testing)
    ensures CATEGORIES[25] == ("tests", Testing)
    ensures CATEGORIES[26] == ("testing", Testing)
  {}

  lemma BuildingRows()
    ensures |CATEGORIES| == 36
    ensures CATEGORIES[27] == ("ci", BuildCI)
    ensures CATEGORIES[28] == ("build", BuildCI)
    ensures CATEGORIES[29] == ("docs", Documentation)
    ensures CATEGORIES[30] == ("documentation", Documentation)
  {}

  lemma OtherRows()
    ensures |CATEGORIES| == 36
    ensures CATEGORIES[31] == ("style", Style)
    ensures CATEGORIES[32] == ("chore", Chore)
    ensures CATEGORIES[33] == ("misc", Misc)
    ensures CATEGORIES[34] == ("update", Misc)
    ensures CATEGORIES[35] == ("updated", Misc)
  {}

  lemma RowsFitBreaking()
    ensures |CATEGORIES| == 36 && forall i :: 0 <= i < 2 ==> CATEGORIES[i].0 in Names(CATEGORIES[i].1)
  {
    BreakingRows();
  }

  lemma RowsFitFeatures()
    ensures |CATEGORIES| == 36 && forall i :: 2 <= i < 6 ==> CATEGORIES[i].0 in Names(CATEGORIES[i].1)
  {
    FeaturesRows();
  }

  lemma RowsFitBugFixes()
    ensures |CATEGORIES| == 36 && forall i :: 6 <= i < 11 ==> CATEGORIES[i].0 in Names(CATEGORIES[i].1)
  {
    BugFixesRows();
  }

  lemma RowsFitPerformance()
    ensures |CATEGORIES| == 36 && forall i :: 11 <= i < 13 ==> CATEGORIES[i].0 in Names(CATEGORIES[i].1)
  {
    PerformanceRows();
  }

  lemma RowsFitImprovement()
    ensures |CATEGORIES| == 36 && forall i :: 13 <= i < 16 ==> CATEGORIES[i].0 in Names(CATEGORIES[i].1)
  {
    ImprovementRows();
  }

  lemma RowsFitRefactoring()
    ensures |CATEGORIES| == 36 && forall i :: 16 <= i < 19 ==> CATEGORIES[i].0 in Names(CATEGORIES[i].1)
  {
    RefactoringRows();
  }

  lemma RowsFitChange()
    ensures |CATEGORIES| == 36 && forall i :: 19 <= i < 24 ==> CATEGORIES[i].0 in Names(CATEGORIES[i].1)
  {
    ChangeRows();
  }

  lemma RowsFitTesting()
    ensures |CATEGORIES| == 36 && forall i :: 24 <= i < 27 ==> CATEGORIES[i].0 in Names(CATEGORIES[i].1)
  {
    TestingRows();
  }

  lemma RowsFitBuilding()
    ensures |CATEGORIES| == 36 && forall i :: 27 <= i < 31 ==> CATEGORIES[i].0 in Names(CATEGORIES[i].1)
  {
    BuildingRows();
  }

  lemma RowsFitOther()
    ensures |CATEGORIES| == 36 && forall i :: 31 <= i < 36 ==> CATEGORIES[i].0 in Names(CATEGORIES[i].1)
  {
    OtherRows();
  }

  /** Every row leads to a heading that has its name. */
  lemma RowsNamed()
    ensures forall i :: 0 <= i < |CATEGORIES| ==> CATEGORIES[i].0 in Names(CATEGORIES[i].1)
  {
    RowsFitBreaking();
    RowsFitFeatures();
    RowsFitBugFixes();
    RowsFitPerformance();
    RowsFitImprovement();
    RowsFitRefactoring();
    RowsFitChange();
    RowsFitTesting();
    RowsFitBuilding();
    RowsFitOther();
  }

  ghost predicate InTable(name: string, h: Heading) {
    exists i :: 0 <= i < |CATEGORIES| && CATEGORIES[i] == (name, h)
  }

  lemma NamedInTable(name: string, h: Heading)
    requires name in Names(h)
    ensures InTable(name, h)
  {
    match h
    case Breaking => BreakingRows();
    case Features => FeaturesRows();
    case BugFixes => BugFixesRows();
    case Performance => PerformanceRows();
    case Refactoring =>
      ImprovementRows();
      RefactoringRows();
      ChangeRows();
    case Testing => TestingRows();
    case BuildCI => BuildingRows();
    case Documentation => BuildingRows();
    case Style => OtherRows();
    case Chore => OtherRows();
    case Misc => OtherRows();
  }

  /** The first letters of a name settle its heading. */
  function ByStart(name: string): Heading
    requires |name| >= 2
  {
    match name[0]
    case 'b' => if name[1] == 'r' then Breaking else if |name| > 2 && name[2] == 'g' then BugFixes else BuildCI
    case 'a' => Features
    case 'f' => if name[1] == 'e' then Features else BugFixes
    case 'p' => Performance
    case 'i' => Refactoring
    case 'r' => Refactoring
    case 'd' => if name[1] == 'e' then Refactoring else Documentation
    case 'c' => if name[1] == 'i' then BuildCI else if |name| > 2 && name[2] == 'o' then Chore else Refactoring
    case 't' => Testing
    case 's' => Style
    case _ => Misc
  }

  lemma NameStarts(name: string, h: Heading)
    requires name in Names(h)
    ensures |name| >= 2 && ByStart(name) == h
  {}

  lemma NameIsWord(name: string, h: Heading)
    requires name in Names(h)
    ensures ' ' !in name
  {}

  /** Each name of the table leads to one heading, and no other name to any. */
  lemma TableSpelled(name: string, h: Heading)
    ensures Category(CATEGORIES, name) == Some(h) <==> name in Names(h)
  {
    CategoryIsFirstNamed(CATEGORIES, name);
    RowsNamed();
    if name in Names(h) {
      NamedInTable(name, h);
      var i: nat :| FirstNamed(CATEGORIES, name, i);
      NameStarts(name, h);
      NameStarts(name, CATEGORIES[i].1);
    }
  }

  lemma SpaceInside(text: string, a: string, b: string)
    requires BeginsWithWord(text, a) && BeginsWithWord(text, b) && |a| < |b|
    ensures ' ' in b
  {
    assert b[|a|] == Lower(text[..|b|])[|a|];
  }

  /** A text begins with at most one name as a word. */
  lemma OneWordOnly(text: string, a: string, b: string)
    requires BeginsWithWord(text, a) && BeginsWithWord(text, b) && ' ' !in a && ' ' !in b
    ensures a == b
  {
    if |a| < |b| {
      SpaceInside(text, a, b);
    } else if |b| < |a| {
      SpaceInside(text, b, a);
    }
  }

  /** The order of the table does not matter to a text that begins with one of its names. */
  lemma WordSpelled(text: string, name: string, h: Heading)
    requires name in Names(h) && BeginsWithWord(text, name)
    ensures Keyword(CATEGORIES, text) == Some(h)
  {
    KeywordIsFirstBegun(CATEGORIES, text);
    RowsNamed();
    NamedInTable(name, h);
    var i: nat :| FirstBegun(CATEGORIES, text, i);
    NameIsWord(name, h);
    NameIsWord(CATEGORIES[i].0, CATEGORIES[i].1);
    NameStarts(name, h);
    NameStarts(CATEGORIES[i].0, CATEGORIES[i].1);
    OneWordOnly(text, name, CATEGORIES[i].0);
  }

  ghost predicate BeginsWithName(text: string, h: Heading) {
    exists name :: name in Names(h) && BeginsWithWord(text, name)
  }

  lemma NoWordSpelled(text: string)
    requires forall h :: !BeginsWithName(text, h)
    ensures Keyword(CATEGORIES, text).None?
  {
    KeywordIsFirstBegun(CATEGORIES, text);
    RowsNamed();
    forall i | 0 <= i < |CATEGORIES| ensures !BeginsWithWord(text, CATEGORIES[i].0) {
      assert !BeginsWithName(text, CATEGORIES[i].1);
    }
  }

  /**
   Where the script files a commit without a section: under the heading one of whose names it begins
   with, whatever the order of the table, and under Misc if it begins with none.
   */
  lemma WordHeading(text: string, h: Heading)
    ensures OrMisc(Keyword(CATEGORIES, text)) == h <==>
            BeginsWithName(text, h) || (h == Misc && forall g :: !BeginsWithName(text, g))
  {
    forall g | BeginsWithName(text, g) ensures Keyword(CATEGORIES, text) == Some(g) {
      var name :| name in Names(g) && BeginsWithWord(text, name);
      WordSpelled(text, name, g);
    }
    if forall g :: !BeginsWithName(text, g) { NoWordSpelled(text); }
  }
}
