/**
 * Channel lookup in the command-line tool (run.py): `find_channel`, the
 * four-tier case-insensitive search; `suggest_channels`, the fixed-weight
 * scoring and stable ranking; and the prefix counting of `show_stats`.
 */
module ChannelSearch {
  import opened Wrappers
  import opened Text
  import opened StableSort
  import opened Catalog
  import opened Selection

  // ---------------------------------------------------------------------------
  // find_channel
  // ---------------------------------------------------------------------------

  /** The four loops of `find_channel`, in the order they run. */
  datatype Tier = ExactId | ExactName | IdContains | NameContains

  function Rank(t: Tier): nat {
    match t
    case ExactId => 0
    case ExactName => 1
    case IdContains => 2
    case NameContains => 3
  }

  /** The test one loop applies to a channel; `term` is already lowercased. */
  predicate TierMatch(t: Tier, c: Channel, term: string) {
    match t
    case ExactId => Lower(c.id) == term
    case ExactName => Lower(c.name) == term
    case IdContains => Contains(Lower(c.id), term)
    case NameContains => Contains(Lower(c.name), term)
  }

  /** One loop: the index of the first channel passing the tier's test. */
  function FirstMatch(channels: seq<Channel>, t: Tier, term: string): (r: Option<nat>)
    ensures r.Some? ==> r.value < |channels| && TierMatch(t, channels[r.value], term)
    ensures r.Some? ==> forall j :: 0 <= j < r.value ==> !TierMatch(t, channels[j], term)
    ensures r.None? ==> forall j :: 0 <= j < |channels| ==> !TierMatch(t, channels[j], term)
  {
    if channels == [] then None
    else if TierMatch(t, channels[0], term) then Some(0)
    else
      match FirstMatch(channels[1..], t, term)
      case Some(i) => Some(i + 1)
      case None => None
  }

  /** Where `find_channel` finds its answer: the tier that fires and the channel's index. */
  datatype Hit = Hit(tier: Tier, index: nat)

  /**
   * The search: the earliest tier with any passing channel wins, and within
   * it the earliest channel in list order.
   */
  function Resolve(searchTerm: string, channels: seq<Channel>): (r: Option<Hit>)
    ensures r.Some? ==> r.value.index < |channels| && TierMatch(r.value.tier, channels[r.value.index], Lower(searchTerm))
    ensures r.Some? ==> forall j :: 0 <= j < r.value.index ==> !TierMatch(r.value.tier, channels[j], Lower(searchTerm))
    ensures r.Some? ==> forall t, j :: Rank(t) < Rank(r.value.tier) && 0 <= j < |channels| ==>
                          !TierMatch(t, channels[j], Lower(searchTerm))
    ensures r.None? ==> forall t, j :: 0 <= j < |channels| ==> !TierMatch(t, channels[j], Lower(searchTerm))
  {
    var term := Lower(searchTerm);
    match FirstMatch(channels, ExactId, term)
    case Some(i) => Some(Hit(ExactId, i))
    case None =>
      match FirstMatch(channels, ExactName, term)
      case Some(i) => Some(Hit(ExactName, i))
      case None =>
        match FirstMatch(channels, IdContains, term)
        case Some(i) => Some(Hit(IdContains, i))
        case None =>
          match FirstMatch(channels, NameContains, term)
          case Some(i) => Some(Hit(NameContains, i))
          case None => None
  }

  /**
   * `find_channel(search_term, channels)`: nothing for an empty list;
   * otherwise one of the channels, and nothing exactly when no id or name
   * contains the term, all compared in lower case.
   */
  function FindChannel(searchTerm: string, channels: seq<Channel>): (r: Option<Channel>)
    ensures channels == [] ==> r.None?
    ensures r.Some? ==> r.value in channels
    ensures r.None? <==> forall c :: c in channels ==>
                           !Contains(Lower(c.id), Lower(searchTerm)) && !Contains(Lower(c.name), Lower(searchTerm))
  {
    if channels == [] then None
    else
      match Resolve(searchTerm, channels)
      case Some(hit) => Some(channels[hit.index])
      case None => None
  }

  /**
   * Tier order beats list order: the first channel's id contains the term, but
   * the second channel's id equals it, so the exact-id loop returns the second.
   */
  lemma ExactIdFirst()
    ensures TierMatch(IdContains, Channel("RTP1_HD", "RTP 1 HD"), Lower("RTP1"))
    ensures FindChannel("RTP1", [Channel("RTP1_HD", "RTP 1 HD"), Channel("RTP1", "RTP 1")]) == Some(Channel("RTP1", "RTP 1"))
  {
    HdIdContainsTerm();
    ExactIdSecond();
  }

  lemma ExactIdSecond()
    ensures Lower("RTP1") == "rtp1"
    ensures Resolve("RTP1", [Channel("RTP1_HD", "RTP 1 HD"), Channel("RTP1", "RTP 1")]) == Some(Hit(ExactId, 1))
  {
    var channels := [Channel("RTP1_HD", "RTP 1 HD"), Channel("RTP1", "RTP 1")];
    assert Lower("RTP1") == "rtp1";
    assert FirstMatch(channels[1..], ExactId, "rtp1") == Some(0);
  }

  lemma HdIdContainsTerm()
    ensures Lower("RTP1_HD") == "rtp1" + "_hd" && Contains(Lower("RTP1_HD"), "rtp1")
  {
    var lowered := Lower("RTP1_HD");
    assert lowered == "rtp1" + "_hd";
    assert OccursAt(lowered, "rtp1", 0);
    ContainsOccurs(lowered, "rtp1");
  }

  // ---------------------------------------------------------------------------
  // suggest_channels
  // ---------------------------------------------------------------------------

  const ID_CONTAINS_POINTS := 10
  const NAME_CONTAINS_POINTS := 5
  const ID_PREFIX_POINTS := 15
  const NAME_PREFIX_POINTS := 8

  /**
   * A channel's similarity to a lowercased term: the sum of the weights of the
   * tests it passes. A channel whose id starts with the term scores at least
   * 25, any other at most 23, and the score is positive exactly when the id or
   * the name contains the term.
   */
  function Score(c: Channel, term: string): (r: nat)
    ensures StartsWith(Lower(c.id), term) ==> r >= ID_CONTAINS_POINTS + ID_PREFIX_POINTS
    ensures !StartsWith(Lower(c.id), term) ==> r <= ID_CONTAINS_POINTS + NAME_CONTAINS_POINTS + NAME_PREFIX_POINTS
    ensures r > 0 <==> Contains(Lower(c.id), term) || Contains(Lower(c.name), term)
  {
    (if Contains(Lower(c.id), term) then ID_CONTAINS_POINTS else 0)
    + (if Contains(Lower(c.name), term) then NAME_CONTAINS_POINTS else 0)
    + (if StartsWith(Lower(c.id), term) then ID_PREFIX_POINTS else 0)
    + (if StartsWith(Lower(c.name), term) then NAME_PREFIX_POINTS else 0)
  }

  /** The `(channel, score)` pairs `suggest_channels` collects, in list order. */
  function Scored(channels: seq<Channel>, term: string): seq<(Channel, nat)> {
    if channels == [] then []
    else
      var last := channels[|channels| - 1];
      Scored(channels[..|channels| - 1], term) + (if Score(last, term) > 0 then [(last, Score(last, term))] else [])
  }

  /** Each collected pair is an input channel with its score, which is positive. */
  lemma {:induction false} ScoredEntries(channels: seq<Channel>, term: string)
    ensures forall x :: x in Scored(channels, term) ==> x.0 in channels && x.1 == Score(x.0, term) > 0
  {
    if channels != [] {
      var init := channels[..|channels| - 1];
      ScoredEntries(init, term);
      forall x | x in Scored(init, term) ensures x.0 in channels {
        assert x.0 in init;
      }
    }
  }

  /** Every channel with a positive score is collected, with its score. */
  lemma {:induction false} ScoredComplete(channels: seq<Channel>, term: string, c: Channel)
    requires c in channels && Score(c, term) > 0
    ensures (c, Score(c, term)) in Scored(channels, term)
  {
    var init, last := channels[..|channels| - 1], channels[|channels| - 1];
    if c != last {
      assert c in init by {
        var i :| 0 <= i < |channels| && channels[i] == c;
        assert init[i] == c;
      }
      ScoredComplete(init, term, c);
    }
  }

  /** The test of the collecting loop: a positive score. */
  function Scoring(term: string): Channel -> bool {
    c => Score(c, term) > 0
  }

  /** What the collecting loop appends for a channel: the channel with its score. */
  function ScorePair(term: string): Channel -> (Channel, nat) {
    c => (c, Score(c, term))
  }

  /** The collected pairs are the scoring channels with their scores, each once, in list order. */
  lemma ScoredInOrder(channels: seq<Channel>, term: string)
    ensures exists idx :: SelectedInOrder(channels, Scored(channels, term), idx, Scoring(term), ScorePair(term))
  {
    ScoredIsSelect(channels, term);
    SelectInOrder(channels, Scoring(term), ScorePair(term));
  }

  /** The collecting loop is the generic selection with the scoring test and pairing. */
  lemma {:induction false} ScoredIsSelect(channels: seq<Channel>, term: string)
    ensures Scored(channels, term) == Select(channels, Scoring(term), ScorePair(term))
  {
    if channels != [] {
      var last := channels[|channels| - 1];
      ScoredIsSelect(channels[..|channels| - 1], term);
      assert Scoring(term)(last) == (Score(last, term) > 0) && ScorePair(term)(last) == (last, Score(last, term));
    }
  }

  /**
   * The collected pairs after `sort(key=score, reverse=True)`: the same pairs,
   * by non-increasing score.
   */
  function Ranked(channels: seq<Channel>, term: string): (r: seq<(Channel, nat)>)
    ensures multiset(r) == multiset(Scored(channels, term)) && |r| == |Scored(channels, term)|
    ensures forall i, j :: 0 <= i < j < |r| ==> r[i].1 >= r[j].1
  {
    var s := Scored(channels, term);
    assert StrictOrder(Descending);
    SortBySorted(s, SecondOf, Descending);
    var r := SortBy(s, SecondOf, Descending);
    assert |multiset(r)| == |r| && |multiset(s)| == |s|;
    r
  }

  /** Ties keep list order: the channels of any one score appear as they do in the input. */
  lemma RankedStable(channels: seq<Channel>, term: string, score: nat)
    ensures WithKey(Ranked(channels, term), SecondOf, score) == WithKey(Scored(channels, term), SecondOf, score)
  {
    assert StrictOrder(Descending);
    SortByStable(Scored(channels, term), SecondOf, Descending, score);
  }

  /** Every ranked pair is an input channel with its positive score. */
  lemma RankedEntries(channels: seq<Channel>, term: string)
    ensures forall i :: 0 <= i < |Ranked(channels, term)| ==>
              Ranked(channels, term)[i].0 in channels && Ranked(channels, term)[i].1 == Score(Ranked(channels, term)[i].0, term) > 0
  {
    var r := Ranked(channels, term);
    ScoredEntries(channels, term);
    forall i | 0 <= i < |r| ensures r[i].0 in channels && r[i].1 == Score(r[i].0, term) > 0 {
      assert r[i] in multiset(Scored(channels, term));
    }
  }

  /** In the ranking, a channel whose id starts with the term is never after one whose id does not. */
  lemma RankedPrefixFirst(channels: seq<Channel>, term: string)
    ensures forall i, j :: 0 <= i < j < |Ranked(channels, term)| && StartsWith(Lower(Ranked(channels, term)[j].0.id), term)
              ==> StartsWith(Lower(Ranked(channels, term)[i].0.id), term)
  {
    var r := Ranked(channels, term);
    RankedEntries(channels, term);
    forall i, j | 0 <= i < j < |r| && StartsWith(Lower(r[j].0.id), term) ensures StartsWith(Lower(r[i].0.id), term) {
      assert r[i].1 >= r[j].1;
    }
  }

  /** The end of Python's slice `xs[:limit]` on a list of length `n`. */
  function SliceEnd(n: nat, limit: int): (e: nat)
    ensures e <= n
    ensures limit >= 0 ==> e == if limit < n then limit else n
    ensures limit < 0 ==> e == if n + limit > 0 then n + limit else 0
  {
    if limit >= 0 then (if limit < n then limit else n)
    else if n + limit > 0 then n + limit else 0
  }

  /**
   * What `suggest_channels` returns for a lowercased term: the channels of the
   * first `limit` ranked pairs, each an input channel with a positive score.
   */
  function Suggestions(channels: seq<Channel>, term: string, limit: int): (r: seq<Channel>)
    ensures |r| == SliceEnd(|Scored(channels, term)|, limit)
    ensures forall i :: 0 <= i < |r| ==> r[i] in channels && Score(r[i], term) > 0
  {
    var ranked := SortBy(Scored(channels, term), SecondOf, Descending);
    RankedEntries(channels, term);
    assert ranked == Ranked(channels, term);
    var top := ranked[..SliceEnd(|ranked|, limit)];
    seq(|top|, i requires 0 <= i < |top| => top[i].0)
  }

  /** The suggestions are, in order, the channels of the first ranked pairs; never more than a non-negative `limit`. */
  lemma SuggestionsPrefix(channels: seq<Channel>, term: string, limit: int)
    ensures limit >= 0 ==> |Suggestions(channels, term, limit)| <= limit
    ensures forall i :: 0 <= i < |Suggestions(channels, term, limit)| ==>
              Suggestions(channels, term, limit)[i] == Ranked(channels, term)[i].0
  {
  }

  /**
   * The suggestions come by non-increasing score, with every channel whose id
   * starts with the term before every channel whose id does not.
   */
  lemma SuggestionsRanked(channels: seq<Channel>, term: string, limit: int)
    ensures forall i, j :: 0 <= i < j < |Suggestions(channels, term, limit)| ==>
              Score(Suggestions(channels, term, limit)[i], term) >= Score(Suggestions(channels, term, limit)[j], term)
    ensures forall i, j :: 0 <= i < j < |Suggestions(channels, term, limit)|
              && StartsWith(Lower(Suggestions(channels, term, limit)[j].id), term)
              ==> StartsWith(Lower(Suggestions(channels, term, limit)[i].id), term)
  {
    var r := Suggestions(channels, term, limit);
    var ranked := Ranked(channels, term);
    SuggestionsPrefix(channels, term, limit);
    RankedEntries(channels, term);
    RankedPrefixFirst(channels, term);
    assert forall i :: 0 <= i < |r| ==> r[i] == ranked[i].0 && Score(r[i], term) == ranked[i].1;
  }

  /**
   * The top of the ranking: a scoring channel left out of the suggestions
   * scores no higher than any suggestion.
   */
  lemma SuggestionsTop(channels: seq<Channel>, term: string, limit: int, c: Channel)
    requires c in channels && Score(c, term) > 0 && c !in Suggestions(channels, term, limit)
    ensures forall s :: s in Suggestions(channels, term, limit) ==> Score(s, term) >= Score(c, term)
  {
    var ranked := Ranked(channels, term);
    var suggestions := Suggestions(channels, term, limit);
    ScoredComplete(channels, term, c);
    assert (c, Score(c, term)) in multiset(ranked);
    var m :| 0 <= m < |ranked| && ranked[m] == (c, Score(c, term));
    SuggestionsPrefix(channels, term, limit);
    RankedEntries(channels, term);
    SuggestionsCover(channels, term, limit, m);
    forall s | s in suggestions ensures Score(s, term) >= Score(c, term) {
      var i :| 0 <= i < |suggestions| && suggestions[i] == s;
      assert ranked[i].1 >= ranked[m].1;
    }
  }

  /** The channel of a ranked pair within the slice is among the suggestions. */
  lemma SuggestionsCover(channels: seq<Channel>, term: string, limit: int, m: int)
    requires 0 <= m < |Ranked(channels, term)|
    ensures m < |Suggestions(channels, term, limit)| ==> Ranked(channels, term)[m].0 in Suggestions(channels, term, limit)
  {
    SuggestionsPrefix(channels, term, limit);
    if m < |Suggestions(channels, term, limit)| {
      assert Suggestions(channels, term, limit)[m] == Ranked(channels, term)[m].0;
    }
  }

  /** `suggest_channels(search_term, channels, limit)`: the loop that scores, then the sort and the slice. */
  method SuggestChannels(searchTerm: string, channels: seq<Channel>, limit: int := 5) returns (r: seq<Channel>)
    ensures r == Suggestions(channels, Lower(searchTerm), limit)
  {
    var term := Lower(searchTerm);
    if channels == [] {
      return [];
    }
    var suggestions: seq<(Channel, nat)> := [];
    for k := 0 to |channels|
      invariant suggestions == Scored(channels[..k], term)
    {
      assert channels[..k + 1][..k] == channels[..k];
      var channel := channels[k];
      var score := Score(channel, term);
      if score > 0 {
        suggestions := suggestions + [(channel, score)];
      }
    }
    assert channels[..|channels|] == channels;
    suggestions := SortBy(suggestions, SecondOf, Descending);
    var top := suggestions[..SliceEnd(|suggestions|, limit)];
    r := seq(|top|, i requires 0 <= i < |top| => top[i].0);
    assert r == Suggestions(channels, term, limit);
  }

  /** A prefix match outranks a substring-only match: "SIC" comes before "RTPSicX" for "sic". */
  lemma PrefixOutranks()
    ensures Score(Channel("SIC", "SIC"), "sic") >= 25
    ensures 0 < Score(Channel("RTPSicX", "RTPSicX"), "sic") <= 23
  {
    SicStartsWithTerm();
    RtpSicXContainsTerm();
  }

  lemma SicStartsWithTerm()
    ensures Score(Channel("SIC", "SIC"), "sic") >= 25
  {
    assert Lower("SIC") == "sic";
  }

  lemma RtpSicXContainsTerm()
    ensures 0 < Score(Channel("RTPSicX", "RTPSicX"), "sic") <= 23
  {
    var lowered := Lower("RTPSicX");
    assert lowered == "rtp" + "sic" + "x";
    assert !StartsWith(lowered, "sic") by {
      assert lowered[0] == 'r';
    }
    assert Contains(lowered, "sic") by {
      assert OccursAt(lowered, "sic", 3);
      ContainsOccurs(lowered, "sic");
    }
  }

  // ---------------------------------------------------------------------------
  // show_stats: channels per prefix
  // ---------------------------------------------------------------------------

  /**
   * The prefix loop of `show_stats`: every prefix once, in first-seen order,
   * with the number of channels in its bucket; the counts add up to the
   * number of channels.
   */
  method CountPrefixes(channels: seq<Channel>) returns (prefixes: Counts)
    ensures prefixes == Tally(Prefixes(channels))
    ensures Distinct(prefixes) && Positive(prefixes) && Total(prefixes) == |channels|
    ensures forall p :: Lookup(prefixes, p) == multiset(Prefixes(channels))[p]
  {
    prefixes := [];
    for i := 0 to |channels|
      invariant prefixes == Tally(Prefixes(channels[..i]))
    {
      assert channels[..i + 1][..i] == channels[..i];
      assert Prefixes(channels[..i + 1])[..i] == Prefixes(channels[..i]);
      var prefix := PrefixOf(channels[i].id);
      prefixes := Bump(prefixes, prefix);
    }
    assert channels[..|channels|] == channels;
    TallyShape(Prefixes(channels));
    TallyTotal(Prefixes(channels));
    forall p ensures Lookup(prefixes, p) == multiset(Prefixes(channels))[p] {
      TallyLookup(Prefixes(channels), p);
    }
  }
}
