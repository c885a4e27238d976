/**
 * The workflow generator (scripts/generate_workflow.py): the channel
 * catalogue read from the EPG's `<channel>` elements, the statistics over it,
 * and the dropdown options of the generated workflow, whose shell step later
 * reads the chosen channel id back out of the selected option.
 */
module Workflow {
  import opened Wrappers
  import opened Text
  import opened StableSort
  import opened Catalog
  import opened Selection

  // ---------------------------------------------------------------------------
  // extract_channels
  // ---------------------------------------------------------------------------

  /**
   * A `<channel>` element as `extract_channels` reads it: its `id` attribute,
   * and its first `display-name` child (`None` when there is none) with that
   * child's text (`None` when it has none).
   */
  datatype ChannelElement = ChannelElement(id: Option<string>, displayName: Option<Option<string>>)

  /** The element has a non-empty id and a `display-name` child. */
  predicate Kept(e: ChannelElement) {
    e.id.Some? && e.id.value != "" && e.displayName.Some?
  }

  /** The display-name text, when it is present and non-empty. */
  predicate HasText(e: ChannelElement) {
    e.displayName.Some? && e.displayName.value.Some? && e.displayName.value.value != ""
  }

  /**
   * The catalogue name of a kept element: the id when the display-name text
   * is missing or empty, and otherwise that text with its leading and
   * trailing whitespace removed and nothing else: a slice of the text between
   * two whitespace runs, empty when the text is all whitespace and otherwise
   * beginning and ending with a non-space.
   */
  function NameOf(e: ChannelElement): (name: string)
    requires Kept(e)
    ensures !HasText(e) ==> name == e.id.value
    ensures HasText(e) ==>
      exists i, j :: 0 <= i <= j <= |e.displayName.value.value|
                       && name == e.displayName.value.value[i..j]
                       && AllSpace(e.displayName.value.value[..i]) && AllSpace(e.displayName.value.value[j..])
    ensures name == [] <==> HasText(e) && AllSpace(e.displayName.value.value)
    ensures HasText(e) && name != [] ==> !IsSpace(name[0]) && !IsSpace(name[|name| - 1])
  {
    if HasText(e) then
      StripSlice(e.displayName.value.value);
      Strip(e.displayName.value.value)
    else e.id.value
  }

  /** The catalogue entry of a kept element. */
  function Entry(e: ChannelElement): Channel
    requires Kept(e)
  {
    Channel(e.id.value, NameOf(e))
  }

  /** The catalogue entries of the kept elements, in document order. */
  function KeptChannels(elements: seq<ChannelElement>): seq<Channel> {
    if elements == [] then []
    else
      var last := elements[|elements| - 1];
      KeptChannels(elements[..|elements| - 1]) + (if Kept(last) then [Entry(last)] else [])
  }

  /**
   * The catalogue holds one entry per kept element, in document order, and
   * nothing else: an element is kept exactly when it has a non-empty id and a
   * display-name child.
   */
  lemma {:induction false} KeptChannelsFilter(elements: seq<ChannelElement>)
    ensures exists idx :: SelectedInOrder(elements, KeptChannels(elements), idx, Kept, Entry)
  {
    if elements == [] {
      var none: seq<nat> := [];
      assert SelectedInOrder(elements, KeptChannels(elements), none, Kept, Entry);
    } else {
      var n := |elements| - 1;
      var init, last := elements[..n], elements[n];
      KeptChannelsFilter(init);
      var idx :| SelectedInOrder(init, KeptChannels(init), idx, Kept, Entry);
      SelectedSnoc(init, KeptChannels(init), idx, Kept, Entry, last, elements, KeptChannels(elements));
    }
  }

  /** The sort key: the name in lower case. */
  function NameKey(c: Channel): string { Lower(c.name) }

  lemma StrLessStrictOrder()
    ensures StrictOrder(StrLess)
  {
    forall a ensures !StrLess(a, a) {
      StrLessIrreflexive(a);
    }
    forall a, b, c | StrLess(a, b) && StrLess(b, c) ensures StrLess(a, c) {
      StrLessTransitive(a, b, c);
    }
  }

  /**
   * `extract_channels`: the kept channels, sorted by lowercased name; channels
   * with the same lowercased name stay in document order.
   */
  method ExtractChannels(elements: seq<ChannelElement>) returns (channels: seq<Channel>)
    ensures multiset(channels) == multiset(KeptChannels(elements))
    ensures forall i, j :: 0 <= i < j < |channels| ==> !StrLess(NameKey(channels[j]), NameKey(channels[i]))
    ensures forall k :: WithKey(channels, NameKey, k) == WithKey(KeptChannels(elements), NameKey, k)
  {
    channels := [];
    for i := 0 to |elements|
      invariant channels == KeptChannels(elements[..i])
    {
      assert elements[..i + 1][..i] == elements[..i];
      var channelId := elements[i].id;
      var displayName := elements[i].displayName;
      if channelId.Some? && channelId.value != "" && displayName.Some? {
        var name := if displayName.value.Some? && displayName.value.value != ""
                    then Strip(displayName.value.value) else channelId.value;
        assert Channel(channelId.value, name) == Entry(elements[i]);
        channels := channels + [Channel(channelId.value, name)];
      }
    }
    assert elements[..|elements|] == elements;
    ghost var kept := channels;
    channels := SortBy(channels, NameKey, StrLess);
    StrLessStrictOrder();
    SortBySorted(kept, NameKey, StrLess);
    forall k ensures WithKey(channels, NameKey, k) == WithKey(kept, NameKey, k) {
      SortByStable(kept, NameKey, StrLess, k);
    }
  }

  // ---------------------------------------------------------------------------
  // generate_stats
  // ---------------------------------------------------------------------------

  /** The statistics `generate_stats` returns. */
  datatype WorkflowStats = WorkflowStats(totalChannels: nat, timestamp: string, epgSource: string,
                                         channelsByPrefix: Counts, topPrefixes: Counts)

  const TOP_COUNT := 10


  /** `sorted(prefix_count.items(), key=count, reverse=True)[:10]`. */
  function TopPrefixes(counts: Counts): (r: Counts)
    ensures |r| == if |counts| < TOP_COUNT then |counts| else TOP_COUNT
  {
    var sorted := SortBy(counts, SecondOf, Descending);
    assert |multiset(sorted)| == |sorted|;
    sorted[..if |sorted| < TOP_COUNT then |sorted| else TOP_COUNT]
  }

  /**
   * The top list holds entries of the table by non-increasing count, and no
   * entry left out has a larger count than one that is in.
   */
  lemma TopPrefixesRanked(counts: Counts)
    ensures forall i, j :: 0 <= i < j < |TopPrefixes(counts)| ==> TopPrefixes(counts)[i].1 >= TopPrefixes(counts)[j].1
    ensures forall e :: e in TopPrefixes(counts) ==> e in counts
    ensures forall e, x :: e in counts && e !in TopPrefixes(counts) && x in TopPrefixes(counts) ==> x.1 >= e.1
  {
    assert StrictOrder(Descending);
    SortBySorted(counts, SecondOf, Descending);
    var sorted := SortBy(counts, SecondOf, Descending);
    var r := TopPrefixes(counts);
    assert r == sorted[..|r|];
    TopLeftOut(sorted, r);
    forall e | e in r ensures e in counts {
      assert e in sorted;
      assert e in multiset(counts);
    }
    forall e | e in counts ensures e in sorted {
      assert e in multiset(sorted);
    }
  }

  /**
   * Ties keep the dict's insertion order: the prefixes of any one count appear
   * in the top list in the order they were first seen, and none is skipped
   * ahead of a later one.
   */
  lemma TopPrefixesStable(counts: Counts, count: nat)
    ensures exists rest :: WithKey(TopPrefixes(counts), SecondOf, count) + rest == WithKey(counts, SecondOf, count)
  {
    var sorted := SortBy(counts, SecondOf, Descending);
    var top := TopPrefixes(counts);
    assert StrictOrder(Descending);
    SortByStable(counts, SecondOf, Descending, count);
    assert sorted == top + sorted[|top|..];
    WithKeyAppend(top, sorted[|top|..], SecondOf, count);
  }

  /** In a list sorted by non-increasing count, a prefix outranks whatever it leaves out. */
  lemma TopLeftOut(sorted: Counts, r: Counts)
    requires forall i, j :: 0 <= i < j < |sorted| ==> !Descending(SecondOf(sorted[j]), SecondOf(sorted[i]))
    requires |r| <= |sorted| && r == sorted[..|r|]
    ensures forall e, x :: e in sorted && e !in r && x in r ==> x.1 >= e.1
  {
    forall e, x | e in sorted && e !in r && x in r ensures x.1 >= e.1 {
      var m :| 0 <= m < |sorted| && sorted[m] == e;
      var n :| 0 <= n < |r| && r[n] == x;
      assert sorted[n] == x;
    }
  }

  /**
   * `generate_stats(channels)`: the channel total, the prefix counts (which
   * add up to the total) and the ten most frequent prefixes, each with the
   * count the prefix table holds for it. The clock reading and the source
   * URL are passed in.
   */
  method GenerateStats(channels: seq<Channel>, epgUrl: string, timestamp: string) returns (stats: WorkflowStats)
    ensures stats.totalChannels == |channels| && stats.timestamp == timestamp && stats.epgSource == epgUrl
    ensures stats.channelsByPrefix == Tally(Prefixes(channels))
    ensures Distinct(stats.channelsByPrefix) && Total(stats.channelsByPrefix) == |channels|
    ensures forall p :: Lookup(stats.channelsByPrefix, p) == multiset(Prefixes(channels))[p]
    ensures stats.topPrefixes == TopPrefixes(stats.channelsByPrefix) && |stats.topPrefixes| <= TOP_COUNT
    ensures forall e :: e in stats.topPrefixes ==> Lookup(stats.channelsByPrefix, e.0) == e.1
  {
    var prefixCount: Counts := [];
    for i := 0 to |channels|
      invariant prefixCount == Tally(Prefixes(channels[..i]))
    {
      assert channels[..i + 1][..i] == channels[..i];
      assert Prefixes(channels[..i + 1])[..i] == Prefixes(channels[..i]);
      var prefix := PrefixOf(channels[i].id);
      prefixCount := Bump(prefixCount, prefix);
    }
    assert channels[..|channels|] == channels;
    TallyShape(Prefixes(channels));
    TallyTotal(Prefixes(channels));
    forall p ensures Lookup(prefixCount, p) == multiset(Prefixes(channels))[p] {
      TallyLookup(Prefixes(channels), p);
    }
    var top := TopPrefixes(prefixCount);
    TopPrefixesRanked(prefixCount);
    forall e | e in top ensures Lookup(prefixCount, e.0) == e.1 {
      LookupEntry(prefixCount, e);
    }
    stats := WorkflowStats(|channels|, timestamp, epgUrl, prefixCount, top);
  }

  // ---------------------------------------------------------------------------
  // The dropdown of generate_workflow_content and its shell step
  // ---------------------------------------------------------------------------

  /** The value a channel's option carries: `<id> - <name>`. */
  function Label(c: Channel): string { c.id + " - " + c.name }

  /** The first option, shaped like a channel option: `TODOS - Processar todos os canais`. */
  const ALL_CHANNELS := Channel("TODOS", "Processar todos os canais")
  const ALL_CHANNELS_LABEL := Label(ALL_CHANNELS)

  /** An option as written into the workflow's YAML list. */
  function OptionLine(value: string): string { "        - \"" + value + "\"" }

  /**
   * The option list of `generate_workflow_content`: the all-channels option
   * first, then one option per channel in catalogue order.
   */
  method ChannelOptions(channels: seq<Channel>) returns (options: seq<string>)
    ensures |options| == |channels| + 1
    ensures options[0] == OptionLine(ALL_CHANNELS_LABEL)
    ensures forall i :: 0 <= i < |channels| ==> options[i + 1] == OptionLine(Label(channels[i]))
  {
    var channelOptions: seq<string> := [];
    for i := 0 to |channels|
      invariant |channelOptions| == i
      invariant forall j :: 0 <= j < i ==> channelOptions[j] == OptionLine(Label(channels[j]))
    {
      var option := OptionLine(Label(channels[i]));
      channelOptions := channelOptions + [option];
    }
    var allChannelsOption := OptionLine(ALL_CHANNELS_LABEL);
    options := [allChannelsOption] + channelOptions;
  }

  /** `cut -d' ' -f1`: the first space-delimited field (the whole line when there is no space). */
  function FirstField(line: string): string {
    BeforeFirst(line, ' ')
  }

  /**
   * `cut -d' ' -f3-`: everything after the second space; a line without a
   * space is printed whole, and a line with one space gives the empty string.
   */
  function FromThirdField(line: string): string {
    if ' ' !in line then line
    else
      var rest := line[|BeforeFirst(line, ' ')| + 1..];
      if ' ' !in rest then "" else rest[|BeforeFirst(rest, ' ')| + 1..]
  }

  /**
   * The shell step's round trip: for an id without spaces, the first field of
   * a channel's option value is its id and the fields from the third on are
   * its name. The round trip is over the option value itself; the workflow
   * writes that value inside a double-quoted YAML string and the step reads it
   * back through `echo "$SELECTED"`, so a name holding `"`, `\` or `$` reaches
   * `cut` altered, which this lemma does not cover.
   */
  lemma {:induction false} SelectedChannelRoundTrip(c: Channel)
    requires ' ' !in c.id
    ensures FirstField(Label(c)) == c.id
    ensures FromThirdField(Label(c)) == c.name
  {
    var line := Label(c);
    var tail := "- " + c.name;
    assert line == c.id + [' '] + tail;
    BeforeFirstSep(c.id, tail, ' ');
    assert line[|c.id|] == ' ' && line[|c.id| + 1..] == tail;
    ThirdFieldOfTail(c.name);
  }

  /** After the id and its space, `- <name>` splits at its own space into `-` and the name. */
  lemma ThirdFieldOfTail(name: string)
    ensures ' ' in "- " + name
    ensures ("- " + name)[|BeforeFirst("- " + name, ' ')| + 1..] == name
  {
    var tail := "- " + name;
    assert tail == "-" + [' '] + name;
    BeforeFirstSep("-", name, ' ');
    assert tail[1] == ' ';
    assert tail[2..] == name;
  }

  /** The all-channels option is not mistaken for a channel whose id is another space-free word. */
  lemma AllChannelsDistinct(c: Channel)
    requires ' ' !in c.id && c.id != ALL_CHANNELS.id
    ensures Label(c) != ALL_CHANNELS_LABEL
  {
    SelectedChannelRoundTrip(c);
    SelectedChannelRoundTrip(ALL_CHANNELS);
  }
}
