/**
 * The ticket-list filter and the ticket-form check of the main page script.
 */
module MainScript {
  import opened Strings
  import opened Display

  /** A `.ticket-row`: the text of its `.ticket-description` and of its `.status-badge`. */
  datatype ListRow = ListRow(description: string, badge: string)

  /**
   * `filterTickets`' condition: the lower-cased description contains the
   * lower-cased search term, and the status term is empty or contained in
   * the lower-cased badge (containment, not equality).
   */
  predicate MatchesListFilters(row: ListRow, search: string, status: string)
  {
    Contains(Lower(row.description), Lower(search))
    && (Lower(status) == "" || Contains(Lower(row.badge), Lower(status)))
  }

  /** `filterTickets`: each row is hidden exactly when it fails the condition. */
  method FilterTickets(rows: seq<ListRow>, hidden: array<bool>, search: string, status: string)
    requires hidden.Length == |rows|
    modifies hidden
    ensures forall i :: 0 <= i < |rows| ==> hidden[i] == !MatchesListFilters(rows[i], search, status)
  {
    ApplyFilter(rows, hidden, row => MatchesListFilters(row, search, status));
  }

  /**
   * The status term is matched as a substring of the badge: a term that is
   * only part of a badge's text still selects the row.
   */
  lemma StatusMatchesPartOfBadge(description: string, before: string, status: string, after: string)
    ensures MatchesListFilters(ListRow(description, before + status + after), "", status)
  {
    ContainsEmpty(Lower(description));
    assert Lower([]) == [];
    var badge := Lower(before + status + after);
    assert badge[|before|..|before| + |status|] == Lower(status);
    assert OccursAt(badge, Lower(status), |before|);
    ContainsAt(badge, Lower(status));
  }

  /** Only the description is searched: a term found only in the badge does not select the row. */
  lemma SearchIgnoresBadge(row: ListRow, search: string)
    requires !Contains(Lower(row.description), Lower(search))
    ensures !MatchesListFilters(row, search, "")
  {
  }

  /** Why the form's submission is stopped. */
  datatype Alert = DescriptionTooShort | CategoryMissing

  /**
   * The submit handler's alerts, in the order they are raised: a trimmed
   * description under 10 characters, then an empty category. Both checks
   * run, so both alerts can be raised together.
   */
  function SubmitAlerts(description: string, category: string): (r: seq<Alert>)
    ensures DescriptionTooShort in r <==> |Trim(description)| < 10
    ensures CategoryMissing in r <==> category == ""
    ensures |r| <= 2 && (|r| == 2 ==> r == [DescriptionTooShort, CategoryMissing])
  {
    (if |Trim(description)| < 10 then [DescriptionTooShort] else [])
    + (if category == "" then [CategoryMissing] else [])
  }

  /** `e.preventDefault()` is called exactly when some alert is raised. */
  predicate SubmissionPrevented(description: string, category: string)
  {
    SubmitAlerts(description, category) != []
  }

  /** A description of only white space and no category raises both alerts. */
  lemma BlankFormRaisesBoth(description: string)
    requires forall k :: 0 <= k < |description| ==> IsSpace(description[k])
    ensures SubmitAlerts(description, "") == [DescriptionTooShort, CategoryMissing]
  {
    assert TrimStart(description) == [];
  }

  /** White space around the description does not count toward the 10 characters. */
  lemma PaddingDoesNotCount(description: string, category: string)
    requires description != [] && !IsSpace(description[0]) && !IsSpace(description[|description| - 1])
    ensures SubmissionPrevented(" " + description + " ", category)
        <==> |description| < 10 || category == ""
  {
    var padded := " " + description + " ";
    assert TrimStart(padded) == description + " " by {
      assert padded[1..] == description + " ";
    }
    assert TrimEnd(description + " ") == description by {
      assert (description + " ")[..|description|] == description;
    }
    assert Trim(padded) == description;
  }
}
