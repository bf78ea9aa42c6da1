/**
 * The supervisor's list of challenges to review. The page fetches the admin
 * challenge route's list reply, then shows a loading note, an error, an empty
 * state, or one card per challenge with an Open/Closed pill. The pill looks
 * only at the end date; the challenge's `isActive` flag is not consulted.
 */
module SupervisorChallengeListClient {
  import opened Common
  import opened Database
  import AdminChallengeRoute

  type ChallengeSummary = AdminChallengeRoute.ChallengeSummary

  /** `isClosed`: the end lies before now. */
  predicate IsClosed(endDate: int, now: int)
  {
    endDate < now
  }

  /** One card: the link target, the title, the pill's text and classes, and the submission count. */
  datatype Card = Card(href: string, title: string, statusText: string, statusColor: string, submissions: nat)

  function CardOf(item: ChallengeSummary, now: int): (card: Card)
    ensures card.statusText == "Closed" <==> IsClosed(item.challenge.endDate, now)
    ensures card.statusText == "Closed" || card.statusText == "Open"
    ensures card.statusText == "Closed" <==> card.statusColor == "bg-red-100 text-red-700"
    ensures card.statusText == "Open" <==> card.statusColor == "bg-green-100 text-green-700"
    ensures card.href == "/dashboard/supervisor/challenges/" + item.challenge.id
    ensures card.submissions == item.submissionCount
  {
    var closed := IsClosed(item.challenge.endDate, now);
    Card("/dashboard/supervisor/challenges/" + item.challenge.id, item.challenge.title,
         if closed then "Closed" else "Open",
         if closed then "bg-red-100 text-red-700" else "bg-green-100 text-green-700",
         item.submissionCount)
  }

  /** What the page renders. */
  datatype View =
    | LoadingView
    | ErrorView(text: string)
    | EmptyView
    | CardsView(cards: seq<Card>)

  /** The render function: loading first, then an error, then the empty state, then the cards. */
  function Render(challenges: seq<ChallengeSummary>, isLoading: bool, error: Option<string>, now: int): (v: View)
    ensures isLoading ==> v == LoadingView
    ensures !isLoading && Truthy(error) ==> v == ErrorView("Error: " + error.value + " ❌")
    ensures v.EmptyView? <==> !isLoading && !Truthy(error) && challenges == []
    ensures v.CardsView? ==>
      && |v.cards| == |challenges|
      && forall i :: 0 <= i < |challenges| ==> v.cards[i] == CardOf(challenges[i], now)
  {
    if isLoading then LoadingView
    else if Truthy(error) then ErrorView("Error: " + error.value + " ❌")
    else if |challenges| == 0 then EmptyView
    else CardsView(seq(|challenges|, i requires 0 <= i < |challenges| => CardOf(challenges[i], now)))
  }

  /** The pill does not depend on `isActive`: flipping the flag leaves every card as it is. */
  lemma CardIgnoresIsActive(item: ChallengeSummary, now: int)
    ensures var c := item.challenge;
      var flipped := AdminChallengeRoute.ChallengeSummary(c.(isActive := !c.isActive), item.submissionCount);
      CardOf(flipped, now) == CardOf(item, now)
  {
  }

  /** How one fetch ended. */
  datatype FetchOutcome =
    | Fetched(data: seq<ChallengeSummary>)
    | Rejected(serverMessage: Option<string>, statusText: string)
    | Threw(message: Option<string>)

  /** The error text the `catch` block stores for a failed fetch. */
  function FetchError(outcome: FetchOutcome): (e: string)
    requires !outcome.Fetched?
    ensures e != ""
    ensures outcome.Rejected? && Truthy(outcome.serverMessage) ==> e == outcome.serverMessage.value
  {
    var thrown :=
      if outcome.Rejected? then
        (if Truthy(outcome.serverMessage) then outcome.serverMessage.value
         else "Failed to fetch challenges: " + outcome.statusText)
      else if outcome.message.Some? then outcome.message.value else "";
    if thrown != "" then thrown else "An unknown error occurred while loading challenges."
  }

  /** The page's state. */
  class ListPage {
    var challenges: seq<ChallengeSummary>
    var isLoading: bool
    var error: Option<string>

    constructor ()
      ensures challenges == [] && isLoading && error.None?
    {
      challenges := [];
      isLoading := true;
      error := None;
    }

    /** `fetchChallenges`: the list is replaced only by a successful reply. */
    method FetchChallenges(outcome: FetchOutcome)
      modifies this
      ensures !isLoading
      ensures outcome.Fetched? ==> challenges == outcome.data && error.None?
      ensures !outcome.Fetched? ==> challenges == old(challenges) && error == Some(FetchError(outcome))
    {
      isLoading := true;
      error := None;
      if outcome.Fetched? {
        challenges := outcome.data;
      } else {
        error := Some(FetchError(outcome));
      }
      isLoading := false;
    }
  }

  /** After any fetch the page shows an error exactly when the fetch failed. */
  lemma AfterFetchShowsErrorIffFailed(challenges: seq<ChallengeSummary>, outcome: FetchOutcome, now: int)
    ensures var cs := if outcome.Fetched? then outcome.data else challenges;
      var err := if outcome.Fetched? then None else Some(FetchError(outcome));
      Render(cs, false, err, now).ErrorView? <==> !outcome.Fetched?
  {
  }
}
