/** The campus map's search (src/components/UniversityMap.tsx): a case-insensitive filter
    of the fixed university table on a substring of the name or of the state. */
module UniversityMap {
  import opened Seqs
  import opened Text

  /** A university of the table; its display-only map coordinates are not modelled. */
  datatype University = University(id: string, name: string, shortName: string, color: string, state: string)

  /** The fixed table the map shows (`mockUniversities`). */
  const Universities: seq<University> := [
    University("1", "University of Jos", "UNIJOS", "whispr-blue", "Plateau"),
    University("2", "Karl-Kumm University", "Karl-Kumm", "whispr-green", "Plateau"),
    University("3", "Anan University", "ANAN", "whispr-purple", "Plateau"),
    University("4", "Plateau State University", "PLASU", "whispr-pink", "Plateau"),
    University("5", "Federal University of Education", "FUE Pankshin", "whispr-orange", "Plateau"),
    University("6", "Royal College Of Health", "Royal Shendam", "whispr-teal", "Plateau"),
    University("7", "Low Land College Of Health", "Lowland Shendam", "whispr-yellow", "Plateau"),
    University("8", "Federal College of Animal Health and Production Technology", "FCAHPT Vom", "whispr-indigo", "Plateau"),
    University("9", "Federal College of Forestry", "FCF Jos", "whispr-blue", "Plateau"),
    University("10", "Nigerian Institute Of Mining & Geosciences", "NIM Jos", "whispr-green", "Plateau"),
    University("11", "Federal College of Land Resources Technology", "FCLRT Jos", "whispr-purple", "Plateau"),
    University("12", "College of Health Technology", "CHT Zawan", "whispr-pink", "Plateau"),
    University("13", "Federal College of Veterinary and Medical Laboratory Tech", "FCVMLT Vom", "whispr-orange", "Plateau"),
    University("14", "Abdullahi Maikano College of Education", "AMCOE Wase", "whispr-teal", "Plateau")
  ]

  /** The filter's test: the lower-cased name or state includes the lower-cased term. */
  predicate Matches(u: University, term: string)
  {
    Contains(ToLower(u.name), ToLower(term)) || Contains(ToLower(u.state), ToLower(term))
  }

  /** The `filter` of `filteredUniversities`, over a table of universities. */
  function SearchIn(table: seq<University>, term: string): (r: seq<University>)
    ensures |r| <= |table|
    ensures forall u | u in r :: u in table && Matches(u, term)
  {
    Filter(table, (u: University) => Matches(u, term))
  }

  /** `filteredUniversities` for the current search term: the filter over the fixed table. */
  function Search(term: string): seq<University>
  {
    SearchIn(Universities, term)
  }

  /** The result is an order-preserving subsequence of the table holding exactly the
      universities whose name or state matches: sound and complete. */
  lemma SearchSoundAndComplete(table: seq<University>, term: string)
    ensures IsSubsequence(SearchIn(table, term), table)
    ensures forall u :: u in SearchIn(table, term) <==> u in table && Matches(u, term)
    ensures forall u ::
      multiset(SearchIn(table, term))[u] == (if Matches(u, term) then multiset(table)[u] else 0)
  {
    var keep := (u: University) => Matches(u, term);
    FilterIsSubsequence(table, keep);
    forall u
      ensures multiset(Filter(table, keep))[u] == if Matches(u, term) then multiset(table)[u] else 0
    {
      FilterMultiplicity(table, keep, u);
    }
    forall u
      ensures u in SearchIn(table, term) <==> u in table && Matches(u, term)
    {
      FilterMembership(table, keep, u);
    }
  }

  /** An empty search lists the whole table, in order. */
  lemma SearchEmptyTermIn(table: seq<University>)
    ensures SearchIn(table, "") == table
  {
    var keep := (u: University) => Matches(u, "");
    forall u | u in table
      ensures keep(u)
    {
      ContainsEmpty(ToLower(u.name));
    }
    FilterAll(table, keep);
  }

  /** On the fixed table, an empty search lists all fourteen universities. */
  lemma SearchEmptyTerm()
    ensures Search("") == Universities
    ensures |Search("")| == 14
  {
    SearchEmptyTermIn(Universities);
  }

  /** Terms that differ only in the case of their letters give the same result. */
  lemma SearchIgnoresCase(table: seq<University>, t1: string, t2: string)
    requires |t1| == |t2|
    requires forall i | 0 <= i < |t1| :: LowerChar(t1[i]) == LowerChar(t2[i])
    ensures SearchIn(table, t1) == SearchIn(table, t2)
  {
    assert ToLower(t1) == ToLower(t2);
    FilterAgrees(table, (u: University) => Matches(u, t1), (u: University) => Matches(u, t2));
  }

  /** Typing more characters never adds a university: the longer term's result is a
      subsequence of the shorter term's, so it is never longer. */
  lemma SearchNarrows(table: seq<University>, term: string, more: string)
    ensures IsSubsequence(SearchIn(table, term + more), SearchIn(table, term))
    ensures |SearchIn(table, term + more)| <= |SearchIn(table, term)|
  {
    ToLowerAppend(term, more);
    forall u | u in table && Matches(u, term + more)
      ensures Matches(u, term)
    {
      if Contains(ToLower(u.name), ToLower(term) + ToLower(more)) {
        ContainsPrefix(ToLower(u.name), ToLower(term), ToLower(more));
      } else {
        ContainsPrefix(ToLower(u.state), ToLower(term), ToLower(more));
      }
    }
    FilterMonotone(table, (u: University) => Matches(u, term + more),
                   (u: University) => Matches(u, term));
    SubsequenceBounds(SearchIn(table, term + more), SearchIn(table, term));
  }

  /** Every university of the table is in the state Plateau, so searching "PLATEAU", in
      any case, lists them all. */
  lemma SearchStateUpperCase()
    ensures Search("PLATEAU") == Universities
  {
    var keep := (u: University) => Matches(u, "PLATEAU");
    assert ToLower("PLATEAU") == "plateau";
    assert ToLower("Plateau") == "plateau";
    forall u | u in Universities
      ensures keep(u)
    {
      assert OccursAt(ToLower(u.state), "plateau", 0);
    }
    FilterAll(Universities, keep);
  }

  /** "No universities found" shows when a term is typed and the result is empty. */
  predicate ShowsNoResults(table: seq<University>, term: string)
  {
    term != "" && |SearchIn(table, term)| == 0
  }

  /** The message shows exactly when a non-empty term matches no university of the table. */
  lemma NoResultsIffNothingMatches(table: seq<University>, term: string)
    ensures ShowsNoResults(table, term) <==>
      term != "" && forall i | 0 <= i < |table| :: !Matches(table[i], term)
  {
    var keep := (u: University) => Matches(u, term);
    if forall i | 0 <= i < |table| :: !Matches(table[i], term) {
      FilterNone(table, keep);
    } else {
      var i :| 0 <= i < |table| && Matches(table[i], term);
      FilterComplete(table, keep, table[i]);
    }
  }
}
