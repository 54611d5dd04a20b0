/** agent/plan/planner.py, lines 232 to 259: which capabilities a deterministic plan starts from.
    The matches with their scores, and which groups of words the query contains, are inputs. */
module PlannerSelection {
  import opened Planner
  import opened StableSort

  datatype Match = Match(capability: Capability, score: nat)

  /** Whether the query mentions products, inventory, campaigns, or asks for them together. */
  datatype Words = Words(product: bool, inventory: bool, campaign: bool, combined: bool)

  const HOT_PRODUCT := Capability("hot_product_analysis", ProductAnalysis, true)
  const INVENTORY_ANALYSIS := Capability("inventory_analysis", Inventory, true)
  const CAMPAIGN_REVIEW := Capability("campaign_review", Campaign, true)

  /** A capability that carries one of the three fixed ids is the one it names. */
  predicate IsRegistered(c: Capability) {
    && (c.id == HOT_PRODUCT.id ==> c == HOT_PRODUCT)
    && (c.id == INVENTORY_ANALYSIS.id ==> c == INVENTORY_ANALYSIS)
    && (c.id == CAMPAIGN_REVIEW.id ==> c == CAMPAIGN_REVIEW)
  }

  predicate HasCapability(s: seq<Capability>, id: string) {
    exists c :: c in s && c.id == id
  }

  /** The matches with a score of two at least, each capability once. */
  function Scored(matches: seq<Match>): seq<Capability> {
    if matches == [] then []
    else
      var n := |matches| - 1;
      var before := Scored(matches[..n]);
      if matches[n].score >= 2 && !HasCapability(before, matches[n].capability.id)
      then before + [matches[n].capability] else before
  }

  function Completed(s: seq<Capability>, c: Capability): seq<Capability> {
    if HasCapability(s, c.id) then s else s + [c]
  }

  function WithProduct(s: seq<Capability>, wanted: bool): seq<Capability> {
    if wanted && !HasAgent(s, ProductAnalysis) then [HOT_PRODUCT] + s else s
  }

  function WithAgent(s: seq<Capability>, wanted: bool, c: Capability): seq<Capability> {
    if wanted && !HasAgent(s, c.agent) then s + [c] else s
  }

  /** What is selected before sorting and cutting. */
  function Gathered(matches: seq<Match>, w: Words): seq<Capability> {
    var s := WithAgent(WithAgent(WithProduct(Scored(matches), w.product), w.inventory, INVENTORY_ANALYSIS),
      w.campaign, CAMPAIGN_REVIEW);
    if w.combined then Completed(Completed(Completed(s, HOT_PRODUCT), INVENTORY_ANALYSIS), CAMPAIGN_REVIEW) else s
  }

  function Rank(a: Agent): nat {
    match a
    case ProductAnalysis => 0
    case Inventory => 1
    case Campaign => 2
    case Report => 3
    case DataQuality => 4
    case KnowledgeBase => 5
    case NetworkSearch => 6
    case DatabaseQuery => 7
    case Other(_) => 99
  }

  function RankOf(c: Capability): int {
    Rank(c.agent)
  }

  /** _sort_multi_agent_capabilities */
  function SortedByRank(s: seq<Capability>): seq<Capability> {
    Sort(RankOf, s)
  }

  function FirstFour(s: seq<Capability>): seq<Capability> {
    if |s| <= 4 then s else s[..4]
  }

  function Selected(matches: seq<Match>, w: Words): seq<Capability> {
    if matches == [] then []
    else
      var s := Gathered(matches, w);
      FirstFour(if w.combined then SortedByRank(s) else s)
  }

  /** _select_capabilities */
  method SelectCapabilities(matches: seq<Match>, w: Words) returns (selected: seq<Capability>)
    ensures selected == Selected(matches, w)
    ensures |selected| <= 4
  {
    if matches == [] { return []; }
    selected := [];
    for i := 0 to |matches|
      invariant selected == Scored(matches[..i])
    {
      assert matches[..i + 1][..i] == matches[..i];
      if matches[i].score >= 2 && !HasCapability(selected, matches[i].capability.id) {
        selected := selected + [matches[i].capability];
      }
    }
    assert matches[..|matches|] == matches;
    if w.product && !HasAgent(selected, ProductAnalysis) { selected := [HOT_PRODUCT] + selected; }
    if w.inventory && !HasAgent(selected, Inventory) { selected := selected + [INVENTORY_ANALYSIS]; }
    if w.campaign && !HasAgent(selected, Campaign) { selected := selected + [CAMPAIGN_REVIEW]; }
    if w.combined {
      selected := Completed(selected, HOT_PRODUCT);
      selected := Completed(selected, INVENTORY_ANALYSIS);
      selected := Completed(selected, CAMPAIGN_REVIEW);
      selected := SortedByRank(selected);
    }
    selected := FirstFour(selected);
  }

  // ---------------------------------------------------------------- counting by rank

  /** How many capabilities rank before `k`. */
  function Before(s: seq<Capability>, k: nat): nat {
    CountBelow(RankOf, s, k)
  }

  lemma {:induction false} AgentCounts(s: seq<Capability>, agent: Agent)
    ensures HasAgent(s, agent) ==> Before(s, Rank(agent)) < Before(s, Rank(agent) + 1)
    ensures Before(s, Rank(agent)) <= Before(s, Rank(agent) + 1) <= |s|
  {
    if s != [] {
      var n := |s| - 1;
      AgentCounts(s[..n], agent);
      assert s == s[..n] + [s[n]];
    }
  }

  lemma {:induction false} BeforeRises(s: seq<Capability>, k: nat, m: nat)
    requires k <= m
    ensures Before(s, k) <= Before(s, m)
  {
    if s != [] { BeforeRises(s[..|s| - 1], k, m); }
  }

  // ---------------------------------------------------------------- the cut

  predicate HasAllThree(s: seq<Capability>) {
    HasAgent(s, ProductAnalysis) && HasAgent(s, Inventory) && HasAgent(s, Campaign)
  }

  lemma {:induction false} ScoredAreRegistered(matches: seq<Match>)
    requires forall i :: 0 <= i < |matches| ==> IsRegistered(matches[i].capability)
    ensures forall c :: c in Scored(matches) ==> IsRegistered(c)
  {
    if matches != [] { ScoredAreRegistered(matches[..|matches| - 1]); }
  }

  /** A query that asks for the three together has all of them before the cut. */
  lemma CombinedGathersAll(matches: seq<Match>, w: Words)
    requires w.combined && forall i :: 0 <= i < |matches| ==> IsRegistered(matches[i].capability)
    ensures HasAllThree(Gathered(matches, w))
  {
    ScoredAreRegistered(matches);
    var s := WithAgent(WithAgent(WithProduct(Scored(matches), w.product), w.inventory, INVENTORY_ANALYSIS),
      w.campaign, CAMPAIGN_REVIEW);
    assert forall c :: c in s ==> IsRegistered(c);
    var g := Gathered(matches, w);
    assert HOT_PRODUCT in g && INVENTORY_ANALYSIS in g && CAMPAIGN_REVIEW in g;
  }

  lemma AgentAt(s: seq<Capability>, agent: Agent)
    requires Rising(RankOf, s) && Before(s, Rank(agent)) < Before(s, Rank(agent) + 1) && Rank(agent) < 99
    ensures var i := Before(s, Rank(agent)); i < |s| && s[i].agent == agent
  {
    AgentCounts(s, agent);
    var i := Before(s, Rank(agent));
    LowKeysComeFirst(RankOf, s, Rank(agent), i);
    LowKeysComeFirst(RankOf, s, Rank(agent) + 1, i);
  }

  lemma CutKeepsExactlyWhen(t: seq<Capability>, agent: Agent)
    requires Rising(RankOf, t) && Before(t, Rank(agent)) < Before(t, Rank(agent) + 1) && Rank(agent) < 99
    ensures HasAgent(FirstFour(t), agent) <==> Before(t, Rank(agent)) < 4
  {
    var cut := FirstFour(t);
    AgentAt(t, agent);
    var i := Before(t, Rank(agent));
    if i < 4 {
      assert cut[i] == t[i];
    }
    forall j | 0 <= j < |cut| && cut[j].agent == agent ensures i < 4 {
      LowKeysComeFirst(RankOf, t, Rank(agent), j);
    }
  }

  lemma CutCounts(s: seq<Capability>, t: seq<Capability>, agent: Agent)
    requires Rising(RankOf, t) && Before(t, Rank(agent)) == Before(s, Rank(agent))
    requires Before(t, Rank(agent) + 1) == Before(s, Rank(agent) + 1)
    requires HasAgent(s, agent) && Rank(agent) < 99
    ensures HasAgent(FirstFour(t), agent) <==> Before(s, Rank(agent)) < 4
  {
    AgentCounts(s, agent);
    CutKeepsExactlyWhen(t, agent);
  }

  /** An agent that is present before the cut survives it exactly when fewer than four
      capabilities rank before it. */
  lemma SurvivesExactlyWhen(s: seq<Capability>, agent: Agent)
    requires HasAgent(s, agent) && Rank(agent) < 99
    ensures HasAgent(FirstFour(SortedByRank(s)), agent) <==> Before(s, Rank(agent)) < 4
  {
    SortRises(RankOf, s);
    SortCounts(RankOf, s, Rank(agent));
    SortCounts(RankOf, s, Rank(agent) + 1);
    CutCounts(s, SortedByRank(s), agent);
  }

  /** A gathered list keeps all three agents exactly when at most three of its capabilities rank
      before campaigns. */
  lemma AllThreeSurviveExactlyWhen(g: seq<Capability>)
    requires HasAllThree(g)
    ensures HasAllThree(FirstFour(SortedByRank(g))) <==> Before(g, Rank(Campaign)) <= 3
  {
    SurvivesExactlyWhen(g, ProductAnalysis);
    SurvivesExactlyWhen(g, Inventory);
    SurvivesExactlyWhen(g, Campaign);
    BeforeRises(g, Rank(ProductAnalysis), Rank(Campaign));
    BeforeRises(g, Rank(Inventory), Rank(Campaign));
  }

  // ---------------------------------------------------------------- in terms of the matches

  /** The i-th match selects a further product or inventory capability: it scores, is not one of
      the two that a combined query selects anyway, and no earlier match has selected it. */
  predicate IsExtra(matches: seq<Match>, i: nat) {
    i < |matches| && matches[i].score >= 2
    && (matches[i].capability.agent == ProductAnalysis || matches[i].capability.agent == Inventory)
    && matches[i].capability.id != HOT_PRODUCT.id && matches[i].capability.id != INVENTORY_ANALYSIS.id
    && forall j :: 0 <= j < i && matches[j].score >= 2 ==> matches[j].capability.id != matches[i].capability.id
  }

  predicate AtMostOneExtra(matches: seq<Match>) {
    forall i: nat, j: nat :: i < j < |matches| && IsExtra(matches, i) ==> !IsExtra(matches, j)
  }

  function Extras(matches: seq<Match>): nat {
    if matches == [] then 0
    else
      var n := |matches| - 1;
      Extras(matches[..n]) + (if IsExtra(matches, n) then 1 else 0)
  }

  lemma {:induction false} ExtrasCount(matches: seq<Match>)
    ensures Extras(matches) == 0 <==> forall i: nat :: !IsExtra(matches, i)
    ensures Extras(matches) <= 1 <==> AtMostOneExtra(matches)
  {
    if matches != [] {
      var n := |matches| - 1;
      var before := matches[..n];
      ExtrasCount(before);
      forall i: nat | i < n ensures IsExtra(before, i) <==> IsExtra(matches, i) {}
    }
  }

  predicate Scores(m: Match, id: string) {
    m.score >= 2 && m.capability.id == id
  }

  lemma HasAppends(s: seq<Capability>, c: Capability, id: string)
    ensures HasCapability(s + [c], id) <==> HasCapability(s, id) || c.id == id
    ensures HasCapability([c] + s, id) <==> HasCapability(s, id) || c.id == id
  {
    assert c in s + [c] && c in [c] + s;
    assert forall x :: x in s ==> x in s + [c] && x in [c] + s;
  }

  lemma {:induction false} ScoredHas(matches: seq<Match>, id: string)
    ensures HasCapability(Scored(matches), id) <==> exists m :: m in matches && Scores(m, id)
  {
    if matches != [] {
      var n := |matches| - 1;
      var m := matches[n];
      ScoredHas(matches[..n], id);
      HasAppends(Scored(matches[..n]), m.capability, id);
      assert forall x :: x in matches <==> x in matches[..n] || x == m by {
        assert matches == matches[..n] + [m];
      }
      assert (exists x :: x in matches && Scores(x, id))
        <==> (exists x :: x in matches[..n] && Scores(x, id)) || Scores(m, id);
    }
  }

  function One(b: bool): nat {
    if b then 1 else 0
  }

  /** The product and inventory capabilities other than the two. */
  function Others(s: seq<Capability>): int {
    Before(s, 2) - One(HasCapability(s, HOT_PRODUCT.id)) - One(HasCapability(s, INVENTORY_ANALYSIS.id))
  }

  lemma {:induction false} BeforePrepends(c: Capability, s: seq<Capability>)
    ensures Before([c] + s, 2) == Before(s, 2) + One(RankOf(c) < 2)
  {
    if s == [] {
      assert [c] + s == [] + [c];
    } else {
      var n := |s| - 1;
      BeforePrepends(c, s[..n]);
      assert [c] + s == ([c] + s[..n]) + [s[n]] && s == s[..n] + [s[n]];
    }
  }

  predicate IsFixed(c: Capability) {
    c == HOT_PRODUCT || c == INVENTORY_ANALYSIS || c == CAMPAIGN_REVIEW
  }

  /** Adding one of the three fixed capabilities that is not there leaves the others as they were. */
  lemma FixedAddsNoOther(s: seq<Capability>, c: Capability)
    requires IsFixed(c) && !HasCapability(s, c.id)
    ensures Others(s + [c]) == Others(s) && Others([c] + s) == Others(s)
  {
    BeforePrepends(c, s);
    HasAppends(s, c, HOT_PRODUCT.id);
    HasAppends(s, c, INVENTORY_ANALYSIS.id);
  }

  lemma {:induction false} OthersScored(matches: seq<Match>)
    requires forall i :: 0 <= i < |matches| ==> IsRegistered(matches[i].capability)
    ensures Others(Scored(matches)) == Extras(matches)
  {
    if matches != [] {
      var n := |matches| - 1;
      var before, m := Scored(matches[..n]), matches[n];
      OthersScored(matches[..n]);
      ExtraWhenNew(matches);
      if m.score >= 2 && !HasCapability(before, m.capability.id) {
        if IsFixed(m.capability) {
          FixedAddsNoOther(before, m.capability);
        }
      }
    }
  }

  /** The last match is an extra exactly when it selects something new that ranks before campaigns. */
  lemma ExtraWhenNew(matches: seq<Match>)
    requires matches != [] && IsRegistered(matches[|matches| - 1].capability)
    ensures var n := |matches| - 1; var c := matches[n].capability;
      IsExtra(matches, n) <==>
        matches[n].score >= 2 && !HasCapability(Scored(matches[..n]), c.id) && RankOf(c) < 2 && !IsFixed(c)
  {
    var n := |matches| - 1;
    var id := matches[n].capability.id;
    ScoredHas(matches[..n], id);
    assert (exists m :: m in matches[..n] && Scores(m, id)) <==> exists j :: 0 <= j < n && Scores(matches[j], id) by {
      if j :| 0 <= j < n && Scores(matches[j], id) { assert matches[..n][j] in matches[..n]; }
    }
    assert (exists j :: 0 <= j < n && Scores(matches[j], id))
      <==> !(forall j :: 0 <= j < n && matches[j].score >= 2 ==> matches[j].capability.id != id);
  }

  lemma WithAgentKeepsOthers(s: seq<Capability>, wanted: bool, c: Capability)
    requires IsFixed(c) && forall x :: x in s ==> IsRegistered(x)
    ensures Others(WithAgent(s, wanted, c)) == Others(s) && forall x :: x in WithAgent(s, wanted, c) ==> IsRegistered(x)
    ensures c == HOT_PRODUCT ==> Others(WithProduct(s, wanted)) == Others(s)
    ensures forall x :: x in WithProduct(s, wanted) ==> IsRegistered(x)
  {
    if !HasAgent(s, c.agent) {
      FixedAddsNoOther(s, c);
    }
  }

  lemma CompletedKeepsOthers(s: seq<Capability>, c: Capability)
    requires IsFixed(c)
    ensures Others(Completed(s, c)) == Others(s)
  {
    if !HasCapability(s, c.id) { FixedAddsNoOther(s, c); }
  }

  /** What is selected by matches and words, before a combined query completes it. */
  function Mentioned(matches: seq<Match>, w: Words): seq<Capability> {
    var s := WithAgent(WithProduct(Scored(matches), w.product), w.inventory, INVENTORY_ANALYSIS);
    WithAgent(s, w.campaign, CAMPAIGN_REVIEW)
  }

  lemma MentionedCounts(matches: seq<Match>, w: Words)
    requires forall i :: 0 <= i < |matches| ==> IsRegistered(matches[i].capability)
    ensures Others(Mentioned(matches, w)) == Extras(matches)
    ensures forall c :: c in Mentioned(matches, w) ==> IsRegistered(c)
  {
    ScoredAreRegistered(matches);
    OthersScored(matches);
    var s0 := Scored(matches);
    WithAgentKeepsOthers(s0, w.product, HOT_PRODUCT);
    var s1 := WithProduct(s0, w.product);
    WithAgentKeepsOthers(s1, w.inventory, INVENTORY_ANALYSIS);
    WithAgentKeepsOthers(WithAgent(s1, w.inventory, INVENTORY_ANALYSIS), w.campaign, CAMPAIGN_REVIEW);
  }

  lemma CompletedHas(s: seq<Capability>, c: Capability)
    ensures HasCapability(Completed(s, c), c.id)
    ensures forall id :: HasCapability(s, id) ==> HasCapability(Completed(s, c), id)
  {
    if !HasCapability(s, c.id) { assert c in s + [c]; }
  }

  lemma CompletingCounts(s: seq<Capability>)
    ensures Before(Completed(Completed(Completed(s, HOT_PRODUCT), INVENTORY_ANALYSIS), CAMPAIGN_REVIEW), 2)
      == Others(s) + 2
  {
    var s1 := Completed(s, HOT_PRODUCT);
    var s2 := Completed(s1, INVENTORY_ANALYSIS);
    var s3 := Completed(s2, CAMPAIGN_REVIEW);
    CompletedKeepsOthers(s, HOT_PRODUCT);
    CompletedKeepsOthers(s1, INVENTORY_ANALYSIS);
    CompletedKeepsOthers(s2, CAMPAIGN_REVIEW);
    CompletedHas(s, HOT_PRODUCT);
    CompletedHas(s1, INVENTORY_ANALYSIS);
    CompletedHas(s2, CAMPAIGN_REVIEW);
  }

  /** A combined query gathers the two and what the matches add. */
  lemma {:induction false} GatheredCounts(matches: seq<Match>, w: Words)
    requires w.combined && forall i :: 0 <= i < |matches| ==> IsRegistered(matches[i].capability)
    ensures Before(Gathered(matches, w), Rank(Campaign)) == Extras(matches) + 2
  {
    MentionedCounts(matches, w);
    CompletingCounts(Mentioned(matches, w));
  }

  /** A query that asks for products, inventory and campaigns together keeps all three agents
      exactly when at most one match adds a product or inventory capability to
      `hot_product_analysis` and `inventory_analysis`. */
  lemma CombinedKeepsAllExactlyWhen(matches: seq<Match>, w: Words)
    requires matches != [] && w.combined && forall i :: 0 <= i < |matches| ==> IsRegistered(matches[i].capability)
    ensures HasAllThree(Selected(matches, w)) <==> AtMostOneExtra(matches)
  {
    CombinedGathersAll(matches, w);
    AllThreeSurviveExactlyWhen(Gathered(matches, w));
    GatheredCounts(matches, w);
    ExtrasCount(matches);
  }

  /** The failing input: one further product and one further inventory capability match, and the
      combined query loses an agent. */
  lemma CombinedMayLoseAnAgent(w: Words, a: Capability, b: Capability) returns (matches: seq<Match>)
    requires w.combined && a.agent == ProductAnalysis && b.agent == Inventory && a.id != b.id
    requires IsRegistered(a) && IsRegistered(b) && !IsFixed(a) && !IsFixed(b)
    ensures matches == [Match(a, 3), Match(b, 3)] && !HasAllThree(Selected(matches, w))
  {
    matches := [Match(a, 3), Match(b, 3)];
    assert IsExtra(matches, 0) && IsExtra(matches, 1);
    CombinedKeepsAllExactlyWhen(matches, w);
  }

  // ---------------------------------------------------------------- what is selected

  /** The match is the first of its capability that scores. */
  predicate IsPick(matches: seq<Match>, i: nat) {
    i < |matches| && matches[i].score >= 2
    && forall j :: 0 <= j < i && matches[j].score >= 2 ==> matches[j].capability.id != matches[i].capability.id
  }

  /** The picked matches, in order. */
  function Picks(matches: seq<Match>): seq<nat> {
    if matches == [] then []
    else
      var n := |matches| - 1;
      Picks(matches[..n]) + if IsPick(matches, n) then [n] else []
  }

  lemma {:induction false} PicksRise(matches: seq<Match>)
    ensures forall k :: 0 <= k < |Picks(matches)| ==> Picks(matches)[k] < |matches|
    ensures forall k, m :: 0 <= k < m < |Picks(matches)| ==> Picks(matches)[k] < Picks(matches)[m]
  {
    if matches != [] { PicksRise(matches[..|matches| - 1]); }
  }

  lemma PickedNow(matches: seq<Match>)
    requires matches != []
    ensures var n := |matches| - 1;
      && (IsPick(matches, n) <==>
            matches[n].score >= 2 && !HasCapability(Scored(matches[..n]), matches[n].capability.id))
      && (forall i: nat :: i < n ==> (IsPick(matches, i) <==> IsPick(matches[..n], i)))
  {
    var n := |matches| - 1;
    var id := matches[n].capability.id;
    ScoredHas(matches[..n], id);
    if m :| m in matches[..n] && Scores(m, id) {
      var j :| 0 <= j < n && matches[..n][j] == m;
      assert matches[j] == m;
    }
    forall j | 0 <= j < n && matches[j].score >= 2 && matches[j].capability.id == id
      ensures matches[..n][j] in matches[..n] && Scores(matches[..n][j], id)
    {}
  }

  lemma {:induction false} PicksAre(matches: seq<Match>, i: nat)
    ensures i in Picks(matches) <==> IsPick(matches, i)
  {
    if matches != [] {
      PicksAre(matches[..|matches| - 1], i);
      PickedNow(matches);
    }
  }

  /** The scored capabilities are those of the picked matches, in match order. */
  lemma {:induction false} ScoredArePicks(matches: seq<Match>, k: nat)
    requires k < |Scored(matches)|
    ensures |Picks(matches)| == |Scored(matches)| && Picks(matches)[k] < |matches|
    ensures Scored(matches)[k] == matches[Picks(matches)[k]].capability
  {
    var n := |matches| - 1;
    PickedNow(matches);
    PicksRise(matches);
    ScoredSizes(matches);
    ScoredSizes(matches[..n]);
    if k < |Scored(matches[..n])| { ScoredArePicks(matches[..n], k); }
  }

  lemma {:induction false} ScoredSizes(matches: seq<Match>)
    ensures |Picks(matches)| == |Scored(matches)|
  {
    if matches != [] {
      ScoredSizes(matches[..|matches| - 1]);
      PickedNow(matches);
    }
  }

  function If(b: bool, c: Capability): seq<Capability> {
    if b then [c] else []
  }

  /** A capability in front for products, one behind for inventory and for campaigns, each if the
      query mentions them and no scored capability is of their agent. */
  function WithMentioned(scored: seq<Capability>, w: Words): seq<Capability> {
    If(w.product && !HasAgent(scored, ProductAnalysis), HOT_PRODUCT) + scored
    + If(w.inventory && !HasAgent(scored, Inventory), INVENTORY_ANALYSIS)
    + If(w.campaign && !HasAgent(scored, Campaign), CAMPAIGN_REVIEW)
  }

  predicate IsCutToFour(selected: seq<Capability>, all: seq<Capability>) {
    selected <= all && |selected| == if |all| <= 4 then |all| else 4
  }

  lemma HasAgentIn(s: seq<Capability>, c: Capability, agent: Agent)
    ensures HasAgent(s + [c], agent) <==> HasAgent(s, agent) || c.agent == agent
    ensures HasAgent([c] + s, agent) <==> HasAgent(s, agent) || c.agent == agent
  {
    assert c in s + [c] && c in [c] + s;
    assert forall x :: x in s ==> x in s + [c] && x in [c] + s;
  }

  lemma MentionedIs(matches: seq<Match>, w: Words)
    ensures Mentioned(matches, w) == WithMentioned(Scored(matches), w)
  {
    var s := Scored(matches);
    var one := WithProduct(s, w.product);
    HasAgentIn(s, HOT_PRODUCT, Inventory);
    HasAgentIn(s, HOT_PRODUCT, Campaign);
    HasAgentIn(one, INVENTORY_ANALYSIS, Campaign);
    assert one == If(w.product && !HasAgent(s, ProductAnalysis), HOT_PRODUCT) + s;
    assert WithAgent(one, w.inventory, INVENTORY_ANALYSIS)
      == one + If(w.inventory && !HasAgent(s, Inventory), INVENTORY_ANALYSIS);
  }

  /** A query that does not ask for the three together: the scored capabilities in match order and
      what the query mentions besides, cut at four. */
  lemma PlainSelectionIs(matches: seq<Match>, w: Words)
    requires matches != [] && !w.combined
    ensures IsCutToFour(Selected(matches, w), WithMentioned(Scored(matches), w))
  {
    MentionedIs(matches, w);
  }

  /** The three that are missing by their ids, in this order. */
  function Missing(s: seq<Capability>): seq<Capability> {
    If(!HasCapability(s, "hot_product_analysis"), HOT_PRODUCT)
    + If(!HasCapability(s, "inventory_analysis"), INVENTORY_ANALYSIS)
    + If(!HasCapability(s, "campaign_review"), CAMPAIGN_REVIEW)
  }

  lemma CompletedIs(s: seq<Capability>)
    ensures Completed(Completed(Completed(s, HOT_PRODUCT), INVENTORY_ANALYSIS), CAMPAIGN_REVIEW) == s + Missing(s)
  {
    var one := Completed(s, HOT_PRODUCT);
    var two := Completed(one, INVENTORY_ANALYSIS);
    HasAppends(s, HOT_PRODUCT, INVENTORY_ANALYSIS.id);
    HasAppends(s, HOT_PRODUCT, CAMPAIGN_REVIEW.id);
    HasAppends(one, INVENTORY_ANALYSIS, CAMPAIGN_REVIEW.id);
    assert one == s + If(!HasCapability(s, "hot_product_analysis"), HOT_PRODUCT);
    assert two == one + If(!HasCapability(s, "inventory_analysis"), INVENTORY_ANALYSIS);
  }

  /** The agents in the order in which a combined query prefers them. */
  const PREFERRED := [ProductAnalysis, Inventory, Campaign, Report, DataQuality, KnowledgeBase, NetworkSearch,
                      DatabaseQuery]

  /** The first agent is preferred to the second, or they are the same, or both are of none. */
  predicate IsPreferred(a: Agent, b: Agent) {
    forall i :: 0 <= i < |PREFERRED| && PREFERRED[i] == b ==> exists j :: 0 <= j <= i && PREFERRED[j] == a
  }

  lemma PreferredExactlyWhen(a: Agent, b: Agent)
    ensures IsPreferred(a, b) <==> Rank(a) <= Rank(b)
  {
    assert forall i :: 0 <= i < |PREFERRED| ==> Rank(PREFERRED[i]) == i;
    assert forall c: Agent :: !c.Other? ==> PREFERRED[Rank(c)] == c;
    if Rank(a) <= Rank(b) && !a.Other? {
      forall i | 0 <= i < |PREFERRED| && PREFERRED[i] == b ensures exists j :: 0 <= j <= i && PREFERRED[j] == a {
        assert PREFERRED[Rank(a)] == a;
      }
    }
    if IsPreferred(a, b) && !b.Other? { assert PREFERRED[Rank(b)] == b; }
  }

  /** The same capabilities in order of preference, those of one rank as they were. */
  ghost predicate IsRanked(ranked: seq<Capability>, all: seq<Capability>, k: int) {
    && multiset(ranked) == multiset(all) && WithKey(RankOf, ranked, k) == WithKey(RankOf, all, k)
    && (forall i, j :: 0 <= i < j < |ranked| ==> IsPreferred(ranked[i].agent, ranked[j].agent))
  }

  lemma SortedIsRanked(all: seq<Capability>, k: int)
    ensures IsRanked(SortedByRank(all), all, k)
  {
    var ranked := SortedByRank(all);
    SortRises(RankOf, all);
    SortContents(RankOf, all);
    SortIsStable(RankOf, all, k);
    forall i, j | 0 <= i < j < |ranked| ensures IsPreferred(ranked[i].agent, ranked[j].agent) {
      assert RankOf(ranked[i]) <= RankOf(ranked[j]);
      PreferredExactlyWhen(ranked[i].agent, ranked[j].agent);
    }
  }

  lemma CombinedIsGathered(matches: seq<Match>, w: Words)
    requires w.combined
    ensures var s := WithMentioned(Scored(matches), w); Gathered(matches, w) == s + Missing(s)
  {
    MentionedIs(matches, w);
    CompletedIs(Mentioned(matches, w));
  }

  /** A query that asks for the three together: the same and the three, each once, ranked and cut
      at four. */
  lemma CombinedSelectionIs(matches: seq<Match>, w: Words, k: int) returns (ranked: seq<Capability>)
    requires matches != [] && w.combined
    ensures var s := WithMentioned(Scored(matches), w);
      IsRanked(ranked, s + Missing(s), k) && IsCutToFour(Selected(matches, w), ranked)
  {
    CombinedIsGathered(matches, w);
    ranked := SortedByRank(Gathered(matches, w));
    SortedIsRanked(Gathered(matches, w), k);
  }
}
