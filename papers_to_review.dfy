/** The teacher's papers-to-review panel: the colour of a paper's plagiarism badge. */
module PapersToReview {

  const GreenBadge: string := "bg-green-500/20 text-green-400"
  const YellowBadge: string := "bg-yellow-500/20 text-yellow-400"
  const RedBadge: string := "bg-red-500/20 text-red-400"

  /**
   * `getPlagiarismBadgeClass(match)`: green under 5, yellow from 5 to under 25,
   * red from 25 up. The three ranges cover every percentage and the three
   * classes differ, so every paper gets exactly one badge.
   */
  function PlagiarismBadgeClass(percent: real): (c: string)
    ensures c == GreenBadge <==> percent < 5.0
    ensures c == YellowBadge <==> 5.0 <= percent < 25.0
    ensures c == RedBadge <==> 25.0 <= percent
  {
    BadgesDistinct();
    if percent < 5.0 then GreenBadge
    else if percent < 25.0 then YellowBadge
    else RedBadge
  }

  /** How alarming a badge is: 0 green, 1 yellow, 2 red. */
  function Severity(c: string): nat {
    if c == GreenBadge then 0 else if c == YellowBadge then 1 else 2
  }

  lemma BadgesDistinct()
    ensures GreenBadge != YellowBadge && GreenBadge != RedBadge && YellowBadge != RedBadge
  {
    assert GreenBadge[3] != YellowBadge[3] && GreenBadge[3] != RedBadge[3] && YellowBadge[3] != RedBadge[3];
  }

  /** A higher match never gets a less severe badge. */
  lemma BadgeMonotone(a: real, b: real)
    requires a <= b
    ensures Severity(PlagiarismBadgeClass(a)) <= Severity(PlagiarismBadgeClass(b))
  {
    BadgesDistinct();
  }

  /** A paper as the panel lists it; only its match percentage matters here. */
  datatype Paper = Paper(id: int, assignment: string, plagiarismMatch: real, reviewed: bool)

  /** The three papers the panel shows. */
  const Fixture: seq<Paper> := [
    Paper(1, "Quantum Theory Essay", 1.0, false),
    Paper(2, "Organic Chemistry Report", 18.0, false),
    Paper(3, "Calculus Problems Set", 0.0, false)
  ]

  /** The fixture papers are badged green, yellow and green. */
  lemma FixtureBadges()
    ensures |Fixture| == 3
    ensures PlagiarismBadgeClass(Fixture[0].plagiarismMatch) == GreenBadge
    ensures PlagiarismBadgeClass(Fixture[1].plagiarismMatch) == YellowBadge
    ensures PlagiarismBadgeClass(Fixture[2].plagiarismMatch) == GreenBadge
  {
  }
}
