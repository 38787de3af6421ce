/** Sender patterns of one mailbox: the suggestion a new observation gives at once, and the
    batch listing of all suggestions. Senders are normalised addresses. */
module SenderPatterns {
  import opened Common
  import opened StableSort

  /** The categories that can form a pattern; Other is any remaining one. */
  datatype Category = Newsletter | Advertising | ColdOutreach | Notification | Finance | Support | Other

  datatype Observation = Observation(messageId: string, sender: string, category: Category)

  datatype Decision = Accepted | Rejected

  /** Both tables; a message id is observed at most once. */
  datatype State = State(observations: seq<Observation>, decisions: map<(string, Category), Decision>)

  /** An open suggestion; its confidence is matching out of samples. */
  datatype Suggestion = Suggestion(sender: string, category: Category, samples: nat, matching: nat)

  datatype Settings = Settings(minSamples: int, threshold: real)

  const PUBLIC_DOMAINS: set<string> := {
    "gmail.com", "googlemail.com", "outlook.com", "hotmail.com", "live.com", "icloud.com", "me.com", "yahoo.com",
    "yahoo.de", "gmx.de", "gmx.net", "web.de", "t-online.de", "mailbox.org", "fastmail.com"
  }

  /** The part after the last '@'. */
  function Domain(sender: string): string {
    if sender == "" then ""
    else if sender[|sender| - 1] == '@' then ""
    else Domain(sender[..|sender| - 1]) + [sender[|sender| - 1]]
  }

  function Tally(observations: seq<Observation>, sender: string, category: Category): nat {
    if observations == [] then 0
    else
      var last := observations[|observations| - 1];
      Tally(observations[..|observations| - 1], sender, category)
      + if last.sender == sender && last.category == category then 1 else 0
  }

  function Total(observations: seq<Observation>, sender: string): nat {
    if observations == [] then 0
    else
      Total(observations[..|observations| - 1], sender)
      + if observations[|observations| - 1].sender == sender then 1 else 0
  }

  /** The first row of the grouped counts, highest first. `order` is the order in which the
      database happens to return the groups; it decides ties. */
  function Top(observations: seq<Observation>, sender: string, order: seq<Category>): Category
    requires order != []
  {
    if |order| == 1 then order[0]
    else
      var best := Top(observations, sender, order[..|order| - 1]);
      var last := order[|order| - 1];
      if Tally(observations, sender, last) > Tally(observations, sender, best) then last else best
  }

  predicate CompleteOrder(order: seq<Category>) {
    order != [] && forall c: Category :: c in order
  }

  function RequiredSamples(minSamples: int): nat {
    if minSamples < 3 then 3 else minSamples
  }

  /** matching / samples >= threshold, without the division. */
  predicate Confident(matching: nat, samples: nat, threshold: real) {
    samples > 0 && matching as real >= threshold * samples as real
  }

  /** The suggestion for one sender, if its observations make one. */
  function SuggestionFor(s: State, sender: string, settings: Settings, order: seq<Category>): Option<Suggestion>
    requires order != []
  {
    var top := Top(s.observations, sender, order);
    var samples := Total(s.observations, sender);
    var matching := Tally(s.observations, sender, top);
    if Domain(sender) in PUBLIC_DOMAINS || samples < RequiredSamples(settings.minSamples) then None
    else if top == Other || !Confident(matching, samples, settings.threshold) then None
    else if (sender, top) in s.decisions then None
    else Some(Suggestion(sender, top, samples, matching))
  }

  function Senders(observations: seq<Observation>): seq<string> {
    if observations == [] then []
    else
      var before := Senders(observations[..|observations| - 1]);
      var sender := observations[|observations| - 1].sender;
      if sender in before then before else before + [sender]
  }

  function Suggestions(s: State, senders: seq<string>, settings: Settings, order: seq<Category>): seq<Suggestion>
    requires order != []
  {
    if senders == [] then []
    else
      var before := Suggestions(s, senders[..|senders| - 1], settings, order);
      var next := SuggestionFor(s, senders[|senders| - 1], settings, order);
      if next.Some? then before + [next.value] else before
  }

  /** The confidence as the listing shows it, in hundredths of a percent. */
  function Rounded(x: Suggestion): int {
    if x.samples == 0 then 0 else (20000 * x.matching + x.samples) / (2 * x.samples)
  }

  function ByConfidence(): Suggestion -> int {
    (x: Suggestion) => -Rounded(x)
  }

  function BySamples(): Suggestion -> int {
    (x: Suggestion) => 0 - x.samples
  }

  function Listing(s: State, settings: Settings, order: seq<Category>): seq<Suggestion>
    requires order != []
  {
    SortBy(ByConfidence(), SortBy(BySamples(), Suggestions(s, Senders(s.observations), settings, order)))
  }

  predicate Seen(observations: seq<Observation>, messageId: string) {
    exists i :: 0 <= i < |observations| && observations[i].messageId == messageId
  }

  predicate Observable(sender: string, category: Category) {
    '@' in sender && category != Other
  }

  function Observed(s: State, o: Observation): State {
    if Observable(o.sender, o.category) && !Seen(s.observations, o.messageId)
    then s.(observations := s.observations + [o]) else s
  }

  /** What recording an observation returns. */
  function Recorded(s: State, o: Observation, settings: Settings, order: seq<Category>): Option<Suggestion>
    requires order != []
  {
    var found := SuggestionFor(Observed(s, o), o.sender, settings, order);
    if Observed(s, o) != s && found.Some? && found.value.category == o.category then found else None
  }

  class PatternStore {
    var observations: seq<Observation>
    var decisions: map<(string, Category), Decision>

    constructor ()
      ensures View() == State([], map[])
    {
      observations, decisions := [], map[];
    }

    function View(): State
      reads this
    {
      State(observations, decisions)
    }

    /** Records an observation and says at once whether it makes a pattern. */
    method RecordSenderObservation(o: Observation, settings: Settings, order: seq<Category>) returns (r: Option<Suggestion>)
      requires CompleteOrder(order)
      modifies this
      ensures View() == Observed(old(View()), o)
      ensures r == Recorded(old(View()), o, settings, order)
      ensures decisions == old(decisions)
      ensures observations == if '@' in o.sender && o.category != Other && !Seen(old(observations), o.messageId)
                              then old(observations) + [o] else old(observations)
    {
      if !Observable(o.sender, o.category) {
        return None;
      }
      if Seen(observations, o.messageId) {
        return None;
      }
      observations := observations + [o];
      var total := Total(observations, o.sender);
      var top := Top(observations, o.sender, order);
      var count := Tally(observations, o.sender, top);
      if total < RequiredSamples(settings.minSamples) {
        return None;
      }
      if Domain(o.sender) in PUBLIC_DOMAINS || top != o.category || !Confident(count, total, settings.threshold) {
        return None;
      }
      if (o.sender, o.category) in decisions {
        return None;
      }
      r := Some(Suggestion(o.sender, top, total, count));
    }

    method ListPatternSuggestions(settings: Settings, order: seq<Category>) returns (listing: seq<Suggestion>)
      requires CompleteOrder(order)
      ensures listing == Listing(View(), settings, order)
    {
      var result := [];
      var senders := Senders(observations);
      for i := 0 to |senders|
        invariant result == Suggestions(View(), senders[..i], settings, order)
      {
        assert senders[..i + 1][..i] == senders[..i];
        if Domain(senders[i]) in PUBLIC_DOMAINS {
          continue;
        }
        var total := Total(observations, senders[i]);
        if total < RequiredSamples(settings.minSamples) {
          continue;
        }
        var category := Top(observations, senders[i], order);
        var count := Tally(observations, senders[i], category);
        if category == Other || !Confident(count, total, settings.threshold) {
          continue;
        }
        if (senders[i], category) in decisions {
          continue;
        }
        result := result + [Suggestion(senders[i], category, total, count)];
      }
      assert senders[..|senders|] == senders;
      listing := SortBy(ByConfidence(), SortBy(BySamples(), result));
    }

    method DecidePattern(sender: string, category: Category, decision: Decision)
      modifies `decisions
      ensures decisions == old(decisions)[(sender, category) := decision]
    {
      decisions := decisions[(sender, category) := decision];
    }
  }

  // ----- the top category -----

  lemma {:induction false} TopIsMaximal(observations: seq<Observation>, sender: string, order: seq<Category>, c: Category)
    requires order != [] && c in order
    ensures Tally(observations, sender, c) <= Tally(observations, sender, Top(observations, sender, order))
  {
    if |order| > 1 {
      var init := order[..|order| - 1];
      assert order == init + [order[|order| - 1]];
      if c in init {
        TopIsMaximal(observations, sender, init, c);
      }
    }
  }

  lemma {:induction false} TalliesFitTotal(observations: seq<Observation>, sender: string, a: Category, b: Category)
    requires a != b
    ensures Tally(observations, sender, a) + Tally(observations, sender, b) <= Total(observations, sender)
  {
    if observations != [] {
      TalliesFitTotal(observations[..|observations| - 1], sender, a, b);
    }
  }

  /** Scaling keeps a strict order. */
  lemma Scaled(a: real, b: real, c: real)
    requires a > b && c > 0.0
    ensures a * c > b * c
  {
  }

  lemma TwiceAsReal(a: int, b: int)
    requires a as real > 0.5 * b as real
    ensures 2 * a > b
  {
    var twice := 2 * a;
    assert twice as real == a as real + a as real;
  }

  lemma ConfidentMeansMajority(matching: nat, samples: nat, threshold: real)
    requires threshold > 0.5 && Confident(matching, samples, threshold)
    ensures 2 * matching > samples
  {
    Scaled(threshold, 0.5, samples as real);
    TwiceAsReal(matching, samples);
  }

  /** A category with more than half of the observations is the top one in every order. */
  lemma MajorityIsTop(observations: seq<Observation>, sender: string, order: seq<Category>, c: Category)
    requires CompleteOrder(order) && 2 * Tally(observations, sender, c) > Total(observations, sender)
    ensures Top(observations, sender, order) == c
  {
    var top := Top(observations, sender, order);
    TopIsMaximal(observations, sender, order, c);
    if top != c {
      TalliesFitTotal(observations, sender, top, c);
    }
  }

  lemma OrderDoesNotMatter(s: State, sender: string, settings: Settings, order: seq<Category>, order': seq<Category>)
    requires settings.threshold > 0.5 && CompleteOrder(order) && CompleteOrder(order')
    ensures SuggestionFor(s, sender, settings, order) == SuggestionFor(s, sender, settings, order')
  {
    OneOrder(s, sender, settings, order, order');
    OneOrder(s, sender, settings, order', order);
  }

  lemma OneOrder(s: State, sender: string, settings: Settings, order: seq<Category>, order': seq<Category>)
    requires settings.threshold > 0.5 && CompleteOrder(order) && CompleteOrder(order')
    ensures SuggestionFor(s, sender, settings, order).Some? ==>
              SuggestionFor(s, sender, settings, order') == SuggestionFor(s, sender, settings, order)
  {
    var found := SuggestionFor(s, sender, settings, order);
    if found.Some? {
      ConfidentMeansMajority(found.value.matching, found.value.samples, settings.threshold);
      MajorityIsTop(s.observations, sender, order', found.value.category);
    }
  }

  // ----- the listing -----

  lemma {:induction false} SendersMembers(observations: seq<Observation>, sender: string)
    ensures sender in Senders(observations) <==> Total(observations, sender) > 0
  {
    if observations != [] {
      SendersMembers(observations[..|observations| - 1], sender);
    }
  }

  lemma {:induction false} SuggestionsMembers(
    s: State, senders: seq<string>, settings: Settings, order: seq<Category>, x: Suggestion)
    requires order != []
    ensures x in Suggestions(s, senders, settings, order) <==>
              x.sender in senders && SuggestionFor(s, x.sender, settings, order) == Some(x)
  {
    if senders != [] {
      assert senders == senders[..|senders| - 1] + [senders[|senders| - 1]];
      SuggestionsMembers(s, senders[..|senders| - 1], settings, order, x);
    }
  }

  /** The listing has exactly the suggestions of the observed senders. */
  lemma ListingMembers(s: State, settings: Settings, order: seq<Category>, x: Suggestion)
    requires order != []
    ensures x in Listing(s, settings, order) <==> SuggestionFor(s, x.sender, settings, order) == Some(x)
  {
    var all := Suggestions(s, Senders(s.observations), settings, order);
    SortByKeepsElements(BySamples(), all, x);
    SortByKeepsElements(ByConfidence(), SortBy(BySamples(), all), x);
    SuggestionsMembers(s, Senders(s.observations), settings, order, x);
    SendersMembers(s.observations, x.sender);
  }

  /** At most one entry per sender, by descending confidence and, where that is equal, by
      descending number of samples. */
  lemma ListingIsOrdered(s: State, settings: Settings, order: seq<Category>)
    requires order != []
    ensures var listing := Listing(s, settings, order);
            && (forall i, j :: 0 <= i < j < |listing| ==>
                  || Rounded(listing[i]) > Rounded(listing[j])
                  || (Rounded(listing[i]) == Rounded(listing[j]) && listing[i].samples >= listing[j].samples))
            && (forall x, y :: x in listing && y in listing && x.sender == y.sender ==> x == y)
  {
    var inner := SortBy(BySamples(), Suggestions(s, Senders(s.observations), settings, order));
    SortByIsSort(BySamples(), Suggestions(s, Senders(s.observations), settings, order));
    SortedTwice(ByConfidence(), BySamples(), inner);
    var listing := Listing(s, settings, order);
    forall i, j | 0 <= i < j < |listing|
      ensures || Rounded(listing[i]) > Rounded(listing[j])
              || (Rounded(listing[i]) == Rounded(listing[j]) && listing[i].samples >= listing[j].samples)
    {
      assert ByConfidence()(listing[i]) < ByConfidence()(listing[j])
             || (ByConfidence()(listing[i]) == ByConfidence()(listing[j]) && BySamples()(listing[i]) <= BySamples()(listing[j]));
    }
    forall x, y | x in listing && y in listing && x.sender == y.sender
      ensures x == y
    {
      ListingMembers(s, settings, order, x);
      ListingMembers(s, settings, order, y);
    }
  }

  // ----- what a suggestion means -----

  /** The positions of the observations of this sender, in this category or in any. */
  function Positions(observations: seq<Observation>, sender: string, category: Option<Category>): set<nat> {
    set i: nat | i < |observations| && observations[i].sender == sender
                 && (category == None || category == Some(observations[i].category))
  }

  lemma OneMorePosition(observations: seq<Observation>, o: Observation, sender: string, category: Option<Category>)
    ensures |Positions(observations + [o], sender, category)| ==
              |Positions(observations, sender, category)|
              + if o.sender == sender && (category == None || category == Some(o.category)) then 1 else 0
  {
    var before, after := Positions(observations, sender, category), Positions(observations + [o], sender, category);
    forall i: nat
      ensures i in after <==> i in before || (i == |observations| && o.sender == sender
                                              && (category == None || category == Some(o.category)))
      ensures |observations| !in before
    {
      assert i < |observations| ==> (observations + [o])[i] == observations[i];
    }
    hide Positions;
    if o.sender == sender && (category == None || category == Some(o.category)) {
      assert after == before + {|observations|};
    } else {
      assert after == before;
    }
  }

  lemma {:induction false} CountsArePositions(observations: seq<Observation>, sender: string, category: Category)
    ensures Tally(observations, sender, category) == |Positions(observations, sender, Some(category))|
    ensures Total(observations, sender) == |Positions(observations, sender, None)|
  {
    if observations != [] {
      hide Positions;
      var init, last := observations[..|observations| - 1], observations[|observations| - 1];
      assert observations == init + [last];
      CountsArePositions(init, sender, category);
      OneMorePosition(init, last, sender, Some(category));
      OneMorePosition(init, last, sender, None);
    }
  }

  /** The domain of an address is what follows its last '@'. */
  lemma {:induction false} DomainFollowsLastAt(name: string, domain: string)
    requires '@' !in domain
    ensures Domain(name + "@" + domain) == domain
  {
    var sender := name + "@" + domain;
    if domain != "" {
      var init, last := domain[..|domain| - 1], domain[|domain| - 1];
      assert sender[..|sender| - 1] == name + "@" + init && domain == init + [last];
      DomainFollowsLastAt(name, init);
    }
  }

  lemma ShareReaches(matching: nat, samples: nat, threshold: real)
    requires samples > 0
    ensures matching as real / samples as real >= threshold <==> matching as real >= threshold * samples as real
  {
    var share, n := matching as real / samples as real, samples as real;
    assert share * n == matching as real;
    if share > threshold {
      Scaled(share, threshold, n);
    } else if share < threshold {
      Scaled(threshold, share, n);
    }
  }

  /** The evidence for a pattern: enough observations of a sender outside the public domains, a
      share of this category that reaches the threshold, and no decision of the owner yet. */
  ghost predicate Evidence(s: State, sender: string, category: Category, settings: Settings) {
    var samples := |Positions(s.observations, sender, None)|;
    && Domain(sender) !in PUBLIC_DOMAINS && category != Other && (sender, category) !in s.decisions
    && samples >= 3 && samples >= settings.minSamples
    && |Positions(s.observations, sender, Some(category))| as real / samples as real >= settings.threshold
  }

  lemma EvidenceByCounts(s: State, sender: string, category: Category, settings: Settings)
    ensures Evidence(s, sender, category, settings) <==>
              && Domain(sender) !in PUBLIC_DOMAINS && category != Other && (sender, category) !in s.decisions
              && Total(s.observations, sender) >= RequiredSamples(settings.minSamples)
              && Confident(Tally(s.observations, sender, category), Total(s.observations, sender), settings.threshold)
  {
    CountsArePositions(s.observations, sender, category);
    hide Positions, Domain, Tally, Total;
    if Total(s.observations, sender) > 0 {
      ShareReaches(Tally(s.observations, sender, category), Total(s.observations, sender), settings.threshold);
    }
  }

  /** A suggestion is made only on such evidence, for a category that no other one exceeds, and
      reports the counts. */
  lemma SuggestionsHaveEvidence(s: State, sender: string, settings: Settings, order: seq<Category>, other: Category)
    requires CompleteOrder(order) && SuggestionFor(s, sender, settings, order).Some?
    ensures var x := SuggestionFor(s, sender, settings, order).value;
            && x.sender == sender && Evidence(s, sender, x.category, settings)
            && x.samples == |Positions(s.observations, sender, None)|
            && x.matching == |Positions(s.observations, sender, Some(x.category))|
            && |Positions(s.observations, sender, Some(other))| <= x.matching
  {
    var x := SuggestionFor(s, sender, settings, order).value;
    EvidenceByCounts(s, sender, x.category, settings);
    CountsArePositions(s.observations, sender, x.category);
    CountsArePositions(s.observations, sender, other);
    TopIsMaximal(s.observations, sender, order, other);
    hide Positions, Evidence, Domain, Top, Tally, Total;
  }

  /** With a threshold above one half the evidence decides alone: a category is suggested for
      a sender exactly if it is there. */
  lemma SuggestedExactlyOnEvidence(s: State, sender: string, category: Category, settings: Settings, order: seq<Category>)
    requires settings.threshold > 0.5 && CompleteOrder(order)
    ensures var found := SuggestionFor(s, sender, settings, order);
            found.Some? && found.value.category == category <==> Evidence(s, sender, category, settings)
  {
    var found := SuggestionFor(s, sender, settings, order);
    EvidenceByCounts(s, sender, category, settings);
    if Evidence(s, sender, category, settings) {
      ConfidentMeansMajority(Tally(s.observations, sender, category), Total(s.observations, sender), settings.threshold);
      MajorityIsTop(s.observations, sender, order, category);
    }
    hide Evidence, Domain, Top, Tally, Total, Confident;
  }

  /** The confidence shown is the share of the category, rounded to four decimals. */
  lemma RoundedIsNearest(x: Suggestion)
    requires x.samples > 0
    ensures 0 - x.samples <= 2 * (Rounded(x) * x.samples - 10000 * x.matching) <= x.samples
  {
    var a, b := 20000 * x.matching + x.samples, 2 * x.samples;
    assert a == a / b * b + a % b && 0 <= a % b < b;
    assert a / b * b == 2 * (Rounded(x) * x.samples);
  }

  /** The observation returns a suggestion exactly when the listing right after it has one for
      that sender and category, and then the same one; the database may return the groups to
      the two queries in different orders. */
  ghost predicate Agree(s: State, o: Observation, settings: Settings, order: seq<Category>, order': seq<Category>)
    requires order != [] && order' != []
  {
    var r := Recorded(s, o, settings, order);
    var listing := Listing(Observed(s, o), settings, order');
    && (r.Some? <==> exists x :: x in listing && x.sender == o.sender && x.category == o.category)
    && (forall x :: x in listing && x.sender == o.sender && x.category == o.category ==> r == Some(x))
  }

  /** The two queries agree when one order would not change the immediate answer. */
  lemma AgreeMeansSameAnswer(s: State, o: Observation, settings: Settings, order: seq<Category>, order': seq<Category>)
    requires order != [] && order' != [] && Observed(s, o) != s
    ensures Agree(s, o, settings, order, order') <==> Recorded(s, o, settings, order) == Recorded(s, o, settings, order')
  {
    var s' := Observed(s, o);
    var found := SuggestionFor(s', o.sender, settings, order');
    if found.Some? {
      SuggestionNamesSender(s', o.sender, settings, order');
    }
    hide SuggestionFor, Listing, Observed;
    forall x
      ensures x in Listing(s', settings, order') <==> SuggestionFor(s', x.sender, settings, order') == Some(x)
    {
      ListingMembers(s', settings, order', x);
    }
    assert found.Some? ==> found.value in Listing(s', settings, order');
  }

  /** With a threshold above one half the two queries agree in every order of the groups. */
  lemma RecordMatchesListing(s: State, o: Observation, settings: Settings, order: seq<Category>, order': seq<Category>)
    requires settings.threshold > 0.5 && CompleteOrder(order) && CompleteOrder(order')
    requires Observed(s, o) != s
    ensures Agree(s, o, settings, order, order')
  {
    OrderDoesNotMatter(Observed(s, o), o.sender, settings, order, order');
    AgreeMeansSameAnswer(s, o, settings, order, order');
    hide SuggestionFor, Listing, Observed;
  }

  // ----- exactly when the two queries agree -----

  /** Before the observation: `c` is one ahead of the observed category, and with the
      observation both have exactly half. */
  predicate TiesWith(s: State, o: Observation, c: Category) {
    && c != o.category
    && Tally(s.observations, o.sender, c) == Tally(s.observations, o.sender, o.category) + 1
    && 2 * Tally(s.observations, o.sender, c) == Total(s.observations, o.sender) + 1
  }

  predicate Ties(s: State, o: Observation) {
    exists c: Category :: TiesWith(s, o, c)
  }

  /** Nothing but the counts can stop the suggestion. */
  predicate Eligible(s: State, o: Observation, settings: Settings) {
    && Domain(o.sender) !in PUBLIC_DOMAINS
    && Total(s.observations, o.sender) + 1 >= RequiredSamples(settings.minSamples)
    && (o.sender, o.category) !in s.decisions
  }

  lemma CountsAfter(s: State, o: Observation, c: Category)
    requires Observed(s, o) != s
    ensures Tally(Observed(s, o).observations, o.sender, c) ==
              Tally(s.observations, o.sender, c) + if c == o.category then 1 else 0
    ensures Total(Observed(s, o).observations, o.sender) == Total(s.observations, o.sender) + 1
    ensures Observed(s, o).decisions == s.decisions && o.category != Other
  {
    assert (s.observations + [o])[..|s.observations|] == s.observations;
  }

  /** The immediate answer in terms of the counts before the observation. */
  lemma RecordedByCounts(s: State, o: Observation, settings: Settings, order: seq<Category>)
    requires Observed(s, o) != s && CompleteOrder(order)
    ensures var n, samples := Tally(s.observations, o.sender, o.category) + 1, Total(s.observations, o.sender) + 1;
            Recorded(s, o, settings, order) ==
              if Eligible(s, o, settings) && Top(Observed(s, o).observations, o.sender, order) == o.category
                 && Confident(n, samples, settings.threshold)
              then Some(Suggestion(o.sender, o.category, samples, n)) else None
  {
    CountsAfter(s, o, o.category);
    hide Observed, Top, Tally, Total, Domain, Confident;
  }

  /** At one half only a tie lets another order put another category first. */
  lemma HalfIsTop(s: State, o: Observation, order: seq<Category>)
    requires Observed(s, o) != s && CompleteOrder(order) && !Ties(s, o)
    requires 2 * (Tally(s.observations, o.sender, o.category) + 1) >= Total(s.observations, o.sender) + 1
    ensures Top(Observed(s, o).observations, o.sender, order) == o.category
  {
    var after := Observed(s, o).observations;
    var top := Top(after, o.sender, order);
    CountsAfter(s, o, o.category);
    CountsAfter(s, o, top);
    TopIsMaximal(after, o.sender, order, o.category);
    assert !TiesWith(s, o, top);
    if top != o.category {
      TalliesFitTotal(after, o.sender, top, o.category);
    }
  }

  /** Every category, this one first. */
  function FirstOrder(c: Category): (order: seq<Category>)
    ensures order != [] && order[0] == c
  {
    [c, Newsletter, Advertising, ColdOutreach, Notification, Finance, Support, Other]
  }

  lemma FirstOrderIsComplete(c: Category)
    ensures CompleteOrder(FirstOrder(c))
  {
    var order := FirstOrder(c);
    assert order[1] == Newsletter && order[2] == Advertising && order[3] == ColdOutreach && order[4] == Notification
        && order[5] == Finance && order[6] == Support && order[7] == Other;
    forall x: Category
      ensures x in order
    {
      match x {
        case Newsletter =>
        case Advertising =>
        case ColdOutreach =>
        case Notification =>
        case Finance =>
        case Support =>
        case Other =>
      }
    }
  }

  lemma {:induction false} FirstWinsTies(observations: seq<Observation>, sender: string, order: seq<Category>)
    requires order != []
    requires forall c :: c in order ==> Tally(observations, sender, c) <= Tally(observations, sender, order[0])
    ensures Top(observations, sender, order) == order[0]
  {
    if |order| > 1 {
      FirstWinsTies(observations, sender, order[..|order| - 1]);
      assert order[|order| - 1] in order;
    }
  }

  /** In a tie at one half whichever category the database returns first is on top. */
  lemma TieFollowsTheOrder(s: State, o: Observation, c: Category, first: Category)
    requires Observed(s, o) != s && TiesWith(s, o, c) && first in {c, o.category}
    ensures Top(Observed(s, o).observations, o.sender, FirstOrder(first)) == first
  {
    var after := Observed(s, o).observations;
    CountsAfter(s, o, c);
    CountsAfter(s, o, o.category);
    forall x | x in FirstOrder(first)
      ensures Tally(after, o.sender, x) <= Tally(after, o.sender, first)
    {
      if x != c {
        TalliesFitTotal(after, o.sender, x, c);
      }
    }
    FirstWinsTies(after, o.sender, FirstOrder(first));
  }

  ghost predicate AlwaysAgree(s: State, o: Observation, settings: Settings) {
    forall order, order' :: CompleteOrder(order) && CompleteOrder(order') ==> Agree(s, o, settings, order, order')
  }

  lemma NoTieNoDifference(s: State, o: Observation, settings: Settings, order: seq<Category>, order': seq<Category>)
    requires settings.threshold == 0.5 && Observed(s, o) != s && CompleteOrder(order) && CompleteOrder(order')
    requires !(Ties(s, o) && Eligible(s, o, settings))
    ensures Recorded(s, o, settings, order) == Recorded(s, o, settings, order')
  {
    RecordedByCounts(s, o, settings, order);
    RecordedByCounts(s, o, settings, order');
    var n, samples := Tally(s.observations, o.sender, o.category) + 1, Total(s.observations, o.sender) + 1;
    if Eligible(s, o, settings) && Confident(n, samples, settings.threshold) {
      assert 2 * n >= samples;
      HalfIsTop(s, o, order);
      HalfIsTop(s, o, order');
    }
    hide Recorded, Top, Eligible, Confident;
  }

  lemma TieMakesADifference(s: State, o: Observation, settings: Settings)
    requires settings.threshold == 0.5 && Observed(s, o) != s && Ties(s, o) && Eligible(s, o, settings)
    ensures exists order, order' :: CompleteOrder(order) && CompleteOrder(order')
              && Recorded(s, o, settings, order) != Recorded(s, o, settings, order')
  {
    var c :| TiesWith(s, o, c);
    FirstOrderIsComplete(c);
    FirstOrderIsComplete(o.category);
    TieFollowsTheOrder(s, o, c, c);
    TieFollowsTheOrder(s, o, c, o.category);
    RecordedByCounts(s, o, settings, FirstOrder(c));
    RecordedByCounts(s, o, settings, FirstOrder(o.category));
    hide Recorded, Top, Eligible, FirstOrder;
  }

  /** For every threshold that the settings allow, the two queries agree in all orders of the
      groups unless the threshold is exactly one half, another category ties with the
      observed one at exactly half of the samples, and nothing else stops the suggestion. */
  lemma AgreementExactly(s: State, o: Observation, settings: Settings)
    requires settings.threshold >= 0.5 && Observed(s, o) != s
    ensures AlwaysAgree(s, o, settings) <==> !(settings.threshold == 0.5 && Ties(s, o) && Eligible(s, o, settings))
  {
    hide Agree, Recorded, Observed, Ties, Eligible;
    if settings.threshold > 0.5 {
      forall order, order' | CompleteOrder(order) && CompleteOrder(order')
        ensures Agree(s, o, settings, order, order')
      {
        RecordMatchesListing(s, o, settings, order, order');
      }
    } else if Ties(s, o) && Eligible(s, o, settings) {
      TieMakesADifference(s, o, settings);
      var order, order' :| CompleteOrder(order) && CompleteOrder(order')
                           && Recorded(s, o, settings, order) != Recorded(s, o, settings, order');
      AgreeMeansSameAnswer(s, o, settings, order, order');
    } else {
      forall order, order' | CompleteOrder(order) && CompleteOrder(order')
        ensures Agree(s, o, settings, order, order')
      {
        NoTieNoDifference(s, o, settings, order, order');
        AgreeMeansSameAnswer(s, o, settings, order, order');
      }
    }
  }

  lemma SuggestionNamesSender(s: State, sender: string, settings: Settings, order: seq<Category>)
    requires order != [] && SuggestionFor(s, sender, settings, order).Some?
    ensures SuggestionFor(s, sender, settings, order).value.sender == sender
  {
  }

  // ----- runs -----

  datatype Op = Observe(o: Observation) | Decide(sender: string, category: Category, decision: Decision)

  function Step(s: State, op: Op): State {
    match op
    case Observe(o) => Observed(s, o)
    case Decide(sender, category, decision) => s.(decisions := s.decisions[(sender, category) := decision])
  }

  function Run(s: State, ops: seq<Op>): State {
    if ops == [] then s else Step(Run(s, ops[..|ops| - 1]), ops[|ops| - 1])
  }

  predicate DistinctMessages(observations: seq<Observation>) {
    forall i, j :: 0 <= i < j < |observations| ==> observations[i].messageId != observations[j].messageId
  }

  lemma StepCountsMessagesOnce(s: State, op: Op)
    requires DistinctMessages(s.observations)
    ensures DistinctMessages(Step(s, op).observations)
  {
    if op.Observe? && !Seen(s.observations, op.o.messageId) {
      forall i | 0 <= i < |s.observations|
        ensures s.observations[i].messageId != op.o.messageId
      {
      }
    }
  }

  /** No message is counted twice, however often it is observed. */
  lemma {:induction false} RunsCountMessagesOnce(ops: seq<Op>)
    ensures DistinctMessages(Run(State([], map[]), ops).observations)
  {
    if ops != [] {
      RunsCountMessagesOnce(ops[..|ops| - 1]);
      StepCountsMessagesOnce(Run(State([], map[]), ops[..|ops| - 1]), ops[|ops| - 1]);
    }
  }

  /** Observing a message again changes no count and returns no suggestion. */
  lemma RepeatedObservationChangesNothing(s: State, o: Observation, again: Observation, settings: Settings, order: seq<Category>)
    requires order != [] && again.messageId == o.messageId && Observable(o.sender, o.category)
    ensures Observed(Observed(s, o), again) == Observed(s, o)
    ensures Recorded(Observed(s, o), again, settings, order) == None
  {
    var s' := Observed(s, o);
    if !Seen(s.observations, o.messageId) {
      assert s'.observations[|s.observations|].messageId == o.messageId;
    }
  }

  /** Once the owner decided on a pattern, no later listing and no later observation
      suggests it again. */
  lemma {:induction false} DecidedIsNeverSuggestedAgain(
    s: State, ops: seq<Op>, sender: string, category: Category, settings: Settings, order: seq<Category>)
    requires order != [] && (sender, category) in s.decisions
    ensures (sender, category) in Run(s, ops).decisions
    ensures forall x :: x in Listing(Run(s, ops), settings, order) ==> !(x.sender == sender && x.category == category)
    ensures forall o :: Recorded(Run(s, ops), o, settings, order).Some? ==> !(o.sender == sender && o.category == category)
  {
    if ops != [] {
      DecidedIsNeverSuggestedAgain(s, ops[..|ops| - 1], sender, category, settings, order);
    }
    var s' := Run(s, ops);
    forall x | x in Listing(s', settings, order)
      ensures !(x.sender == sender && x.category == category)
    {
      ListingMembers(s', settings, order, x);
    }
  }

  /** At a threshold of exactly one half the orders of the two queries can disagree: the
      observation suggests one category, the listing after it another one. */
  lemma HalfThresholdCanDisagree(s: State, o: Observation, order: seq<Category>, order': seq<Category>)
    requires o == Observation("d", "a@b", Support) && s.decisions == map[]
    requires s.observations == [Observation("a", "a@b", Finance), Observation("b", "a@b", Finance), Observation("c", "a@b", Support)]
    requires order == [Support, Finance, Newsletter, Advertising, ColdOutreach, Notification, Other]
    requires order' == [Finance, Support, Newsletter, Advertising, ColdOutreach, Notification, Other]
    ensures Recorded(s, o, Settings(3, 0.5), order) == Some(Suggestion("a@b", Support, 4, 2))
    ensures Suggestion("a@b", Finance, 4, 2) in Listing(Observed(s, o), Settings(3, 0.5), order')
  {
    var s' := Observed(s, o);
    AllFourCounts(s.observations + [o]);
    assert s' == State(s.observations + [o], map[]);
    hide Tally, Total, Domain, Observed;
    FirstWinsTies(s'.observations, "a@b", order);
    FirstWinsTies(s'.observations, "a@b", order');
    DomainOfExample();
    ListingMembers(s', Settings(3, 0.5), order', Suggestion("a@b", Finance, 4, 2));
    hide Top, Listing;
  }

  lemma AllFourCounts(x: seq<Observation>)
    requires |x| == 4 && forall i :: 0 <= i < 4 ==> x[i].sender == "a@b"
    requires x[0].category == x[1].category == Finance && x[2].category == x[3].category == Support
    ensures Total(x, "a@b") == 4
    ensures forall c: Category :: Tally(x, "a@b", c) == if c == Finance || c == Support then 2 else 0
  {
    forall c: Category
      ensures Tally(x, "a@b", c) == if c == Finance || c == Support then 2 else 0
    {
      TallyOfFour(x, c);
      hide Tally;
    }
    TotalOfFour(x);
  }

  lemma TallyOfFour(x: seq<Observation>, c: Category)
    requires |x| == 4
    ensures Tally(x, "a@b", c) ==
              (if x[0].sender == "a@b" && x[0].category == c then 1 else 0)
              + (if x[1].sender == "a@b" && x[1].category == c then 1 else 0)
              + (if x[2].sender == "a@b" && x[2].category == c then 1 else 0)
              + (if x[3].sender == "a@b" && x[3].category == c then 1 else 0)
  {
    assert Tally(x[..1][..0], "a@b", c) == 0;
    assert x[..2][..1] == x[..1] && x[..3][..2] == x[..2];
    assert Tally(x[..1], "a@b", c) == if x[0].sender == "a@b" && x[0].category == c then 1 else 0;
    assert Tally(x[..2], "a@b", c) == Tally(x[..1], "a@b", c) + if x[1].sender == "a@b" && x[1].category == c then 1 else 0;
    assert Tally(x[..3], "a@b", c) == Tally(x[..2], "a@b", c) + if x[2].sender == "a@b" && x[2].category == c then 1 else 0;
  }

  lemma TotalOfFour(x: seq<Observation>)
    requires |x| == 4 && forall i :: 0 <= i < 4 ==> x[i].sender == "a@b"
    ensures Total(x, "a@b") == 4
  {
    assert x[..2][..1] == x[..1] && x[..3][..2] == x[..2];
    assert Total(x[..1], "a@b") == 1 && Total(x[..2], "a@b") == 2;
  }

  lemma DomainOfExample()
    ensures Domain("a@b") == "b" && "b" !in PUBLIC_DOMAINS
  {
    assert "a@b"[..2] == "a@";
    assert Domain("a@") == "";
  }
}
