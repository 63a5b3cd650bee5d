/** The eligibility test applied to each job card: `isEasyApplyJob(card)`. */
module Scanner {
  import Text

  const EasyApplyMarker := "Easy Apply"

  /**
   * What the test can see of one job card: whether some descendant carries
   * the class `jobs-apply-button`, the `aria-label` of each descendant that
   * has one (in document order), and the card's text content.
   */
  datatype CardView = CardView(hasApplyButtonClass: bool, ariaLabels: seq<string>, text: string)

  /** `card.querySelector('[aria-label*="Easy Apply"]')` finds an element. */
  predicate SomeLabelContains(labels: seq<string>, marker: string)
  {
    labels != [] && (Text.Contains(labels[0], marker) || SomeLabelContains(labels[1..], marker))
  }

  /** `isEasyApplyJob(card)`: the apply-button class, the label, or the text; any one suffices. */
  predicate IsEasyApplyJob(c: CardView)
  {
    c.hasApplyButtonClass
    || SomeLabelContains(c.ariaLabels, EasyApplyMarker)
    || Text.Contains(c.text, EasyApplyMarker)
  }

  /** The label search succeeds exactly when some label has the marker at some position. */
  lemma {:induction false} SomeLabelContainsIff(labels: seq<string>, marker: string)
    ensures SomeLabelContains(labels, marker)
        <==> exists i, j :: 0 <= i < |labels| && Text.OccursAt(labels[i], marker, j)
  {
    if labels != [] {
      SomeLabelContainsIff(labels[1..], marker);
      Text.ContainsIffOccurs(labels[0], marker);
      if SomeLabelContains(labels[1..], marker) {
        var i, j :| 0 <= i < |labels[1..]| && Text.OccursAt(labels[1..][i], marker, j);
        assert Text.OccursAt(labels[i + 1], marker, j);
      }
      if exists i, j :: 0 <= i < |labels| && Text.OccursAt(labels[i], marker, j) {
        var i, j :| 0 <= i < |labels| && Text.OccursAt(labels[i], marker, j);
        if i > 0 {
          assert Text.OccursAt(labels[1..][i - 1], marker, j);
        }
      }
    }
  }

  /**
   * A card is eligible exactly when at least one of the three checks finds
   * "Easy Apply": the apply-button class, some descendant's aria-label, or
   * the card text. No check takes precedence over another.
   */
  lemma EasyApplyIffOneCheck(c: CardView)
    ensures IsEasyApplyJob(c) <==>
      || c.hasApplyButtonClass
      || (exists i, j :: 0 <= i < |c.ariaLabels| && Text.OccursAt(c.ariaLabels[i], EasyApplyMarker, j))
      || (exists j :: Text.OccursAt(c.text, EasyApplyMarker, j))
  {
    SomeLabelContainsIff(c.ariaLabels, EasyApplyMarker);
    Text.ContainsIffOccurs(c.text, EasyApplyMarker);
  }
}
