/** The campaign / line item / creative join of scripts/beeswax_filter.py.
    Records are the fetched JSON objects, seen as string-keyed maps; the
    four record lists are given as values and fetching them is not
    modelled. */
module BeeswaxFilter {
  import opened Strings

  type Record = map<string, string>

  /** get_custom_column_names. */
  datatype ColumnNames = ColumnNames(campaign: seq<string>, lineItem: seq<string>, creative: seq<string>)

  function CustomColumnNames(): ColumnNames {
    ColumnNames(
      ["campaign_id", "campaign_name"],
      ["line_item_id", "line_item_name"],
      ["creative_id", "creative_name", "pixels", "scripts", "creative_content_munge"])
  }

  const CampaignKey := "campaign"
  const LineItemKey := "line_item"
  const CreativeKey := "creative"

  /** `prefix` followed by `c`: the key get_column_values gives column `c`. */
  function Prefixed(keyName: string, c: string): string {
    keyName + "_" + c
  }

  lemma PrefixedInjective(keyName: string, a: string, b: string)
    requires Prefixed(keyName, a) == Prefixed(keyName, b)
    ensures a == b
  {
    var n := |keyName| + 1;
    assert a == Prefixed(keyName, a)[n..];
    assert b == Prefixed(keyName, b)[n..];
  }

  /** get_column_values: the listed columns the payload has, renamed with
      the key name in front. */
  function ColumnValues(payload: Record, cols: seq<string>, keyName: string): (r: Record)
    ensures forall c :: c in cols && c in payload ==> Prefixed(keyName, c) in r && r[Prefixed(keyName, c)] == payload[c]
    ensures forall k :: k in r ==> exists c :: c in cols && c in payload && k == Prefixed(keyName, c)
    decreases |cols|
  {
    if |cols| == 0 then map[]
    else
      var rest := ColumnValues(payload, cols[..|cols| - 1], keyName);
      var c := cols[|cols| - 1];
      assert forall c' :: c' in cols ==> c' in cols[..|cols| - 1] || c' == c;
      if c in payload then
        assert forall c' :: Prefixed(keyName, c') == Prefixed(keyName, c) ==> c' == c by {
          forall c' | Prefixed(keyName, c') == Prefixed(keyName, c) ensures c' == c {
            PrefixedInjective(keyName, c', c);
          }
        }
        rest[Prefixed(keyName, c) := payload[c]]
      else rest
  }

  /** Every key get_column_values produces starts with the key name and an
      underscore. */
  lemma ColumnValuesPrefix(payload: Record, cols: seq<string>, keyName: string)
    ensures forall k :: k in ColumnValues(payload, cols, keyName) ==> IsPrefix(keyName + "_", k)
  {
    forall k | k in ColumnValues(payload, cols, keyName) ensures IsPrefix(keyName + "_", k) {
      var c :| c in cols && c in payload && k == Prefixed(keyName, c);
      assert k[..|keyName + "_"|] == keyName + "_";
    }
  }

  /** Exactly the listed columns present in the payload become keys. */
  lemma ColumnValuesKeys(payload: Record, cols: seq<string>, keyName: string, c: string)
    ensures Prefixed(keyName, c) in ColumnValues(payload, cols, keyName) <==> c in cols && c in payload
  {
    if Prefixed(keyName, c) in ColumnValues(payload, cols, keyName) {
      var c' :| c' in cols && c' in payload && Prefixed(keyName, c) == Prefixed(keyName, c');
      PrefixedInjective(keyName, c, c');
    }
  }

  function CampaignValues(c: Record): Record {
    ColumnValues(c, CustomColumnNames().campaign, CampaignKey)
  }

  function LineItemValues(li: Record): Record {
    ColumnValues(li, CustomColumnNames().lineItem, LineItemKey)
  }

  function CreativeValues(cr: Record): Record {
    ColumnValues(cr, CustomColumnNames().creative, CreativeKey)
  }

  // ---------------------------------------------------------------------
  // The join as a reference: which records are appended, in which order
  // ---------------------------------------------------------------------

  /** The line items of a campaign, in list order. */
  function LineItemsOf(lineItems: seq<Record>, campaign: Record): seq<Record> {
    Filter(lineItems, (li: Record) => "campaign_id" in li && "campaign_id" in campaign &&
                                      li["campaign_id"] == campaign["campaign_id"])
  }

  /** The creative links of a line item, in list order. */
  function LinksOf(links: seq<Record>, lineItem: Record): seq<Record> {
    Filter(links, (l: Record) => "line_item_id" in l && "line_item_id" in lineItem &&
                                 l["line_item_id"] == lineItem["line_item_id"])
  }

  /** next(c for c in creative_list if c['creative_id'] == id): the first
      creative with that id. */
  function FindCreative(creatives: seq<Record>, id: string): (r: Option<Record>)
    ensures r.Some? ==> r.value in creatives && "creative_id" in r.value && r.value["creative_id"] == id
    ensures r.Some? ==> exists i :: 0 <= i < |creatives| && creatives[i] == r.value &&
                                 forall j :: 0 <= j < i ==> !("creative_id" in creatives[j] && creatives[j]["creative_id"] == id)
    ensures r.None? ==> forall c :: c in creatives ==> !("creative_id" in c && c["creative_id"] == id)
    decreases |creatives|
  {
    if |creatives| == 0 then None
    else if "creative_id" in creatives[0] && creatives[0]["creative_id"] == id then Some(creatives[0])
    else
      var r := FindCreative(creatives[1..], id);
      if r.Some? then
        var i :| 0 <= i < |creatives[1..]| && creatives[1..][i] == r.value &&
          forall j :: 0 <= j < i ==> !("creative_id" in creatives[1..][j] && creatives[1..][j]["creative_id"] == id);
        assert creatives[i + 1] == r.value;
        assert forall j :: 0 <= j < i + 1 ==>
          !("creative_id" in creatives[j] && creatives[j]["creative_id"] == id) by {
          forall j | 0 <= j < i + 1
            ensures !("creative_id" in creatives[j] && creatives[j]["creative_id"] == id)
          {
            if j > 0 { assert creatives[j] == creatives[1..][j - 1]; }
          }
        }
        r
      else r
  }

  function LinkedCreative(creatives: seq<Record>, link: Record): Option<Record> {
    if "creative_id" in link then FindCreative(creatives, link["creative_id"]) else None
  }

  /** One joined (campaign, line item, creative): the campaign by position. */
  datatype Joined = Joined(campaignIndex: nat, campaign: Record, lineItem: Record, creative: Record)

  function LinkTriples(ci: nat, c: Record, li: Record, links: seq<Record>, creatives: seq<Record>): seq<Joined>
    decreases |links|
  {
    if |links| == 0 then []
    else
      (match LinkedCreative(creatives, links[0])
       case Some(cr) => [Joined(ci, c, li, cr)]
       case None => []) + LinkTriples(ci, c, li, links[1..], creatives)
  }

  function LineItemTriples(ci: nat, c: Record, lis: seq<Record>, links: seq<Record>, creatives: seq<Record>): seq<Joined>
    decreases |lis|
  {
    if |lis| == 0 then []
    else LinkTriples(ci, c, lis[0], LinksOf(links, lis[0]), creatives) +
         LineItemTriples(ci, c, lis[1..], links, creatives)
  }

  /** Every (campaign, line item of it, link of that line item with a known
      creative), in campaign, then line item, then link order; `base` is the
      position of campaigns[0]. */
  function JoinTriples(base: nat, campaigns: seq<Record>, lineItems: seq<Record>, links: seq<Record>,
                       creatives: seq<Record>): seq<Joined>
    decreases |campaigns|
  {
    if |campaigns| == 0 then []
    else LineItemTriples(base, campaigns[0], LineItemsOf(lineItems, campaigns[0]), links, creatives) +
         JoinTriples(base + 1, campaigns[1..], lineItems, links, creatives)
  }

  // ---------------------------------------------------------------------
  // The join as the source computes it: one accumulator per campaign
  // ---------------------------------------------------------------------

  /** consolidated_data and the records appended so far. */
  datatype Fold = Fold(acc: Record, out: seq<Record>)

  function LinkFold(acc: Record, links: seq<Record>, creatives: seq<Record>): Fold
    decreases |links|
  {
    if |links| == 0 then Fold(acc, [])
    else match LinkedCreative(creatives, links[0])
      case Some(cr) =>
        var acc1 := acc + CreativeValues(cr);
        var rest := LinkFold(acc1, links[1..], creatives);
        Fold(rest.acc, [acc1] + rest.out)
      case None => LinkFold(acc, links[1..], creatives)
  }

  function LineItemFold(acc: Record, lis: seq<Record>, links: seq<Record>, creatives: seq<Record>): Fold
    decreases |lis|
  {
    if |lis| == 0 then Fold(acc, [])
    else
      var f := LinkFold(acc + LineItemValues(lis[0]), LinksOf(links, lis[0]), creatives);
      var rest := LineItemFold(f.acc, lis[1..], links, creatives);
      Fold(rest.acc, f.out + rest.out)
  }

  function CampaignRecords(campaign: Record, lineItems: seq<Record>, links: seq<Record>, creatives: seq<Record>): seq<Record> {
    LineItemFold(CampaignValues(campaign), LineItemsOf(lineItems, campaign), links, creatives).out
  }

  /** consolidated_reports_list. */
  function Consolidate(campaigns: seq<Record>, lineItems: seq<Record>, links: seq<Record>, creatives: seq<Record>): seq<Record>
    decreases |campaigns|
  {
    if |campaigns| == 0 then []
    else CampaignRecords(campaigns[0], lineItems, links, creatives) + Consolidate(campaigns[1..], lineItems, links, creatives)
  }

  // ---------------------------------------------------------------------
  // What each appended record holds
  // ---------------------------------------------------------------------

  predicate SubMap(m: Record, rec: Record) {
    forall k :: k in m ==> k in rec && rec[k] == m[k]
  }

  /** The campaign_ keys of `rec` are exactly those of the campaign. */
  predicate CampaignPart(rec: Record, c: Record) {
    SubMap(CampaignValues(c), rec) &&
    forall k :: k in rec && IsPrefix("campaign_", k) ==> k in CampaignValues(c)
  }

  /** The record appended for a joined triple: the campaign's columns
      exactly, and the line item's and the creative's columns with their
      values (older line item or creative keys may linger). */
  predicate Fits(rec: Record, j: Joined) {
    CampaignPart(rec, j.campaign) && SubMap(LineItemValues(j.lineItem), rec) &&
    SubMap(CreativeValues(j.creative), rec)
  }

  predicate AllFit(out: seq<Record>, ts: seq<Joined>) {
    |out| == |ts| && forall i :: 0 <= i < |out| ==> Fits(out[i], ts[i])
  }

  lemma AllFitConcat(a: seq<Record>, ta: seq<Joined>, b: seq<Record>, tb: seq<Joined>)
    requires AllFit(a, ta) && AllFit(b, tb)
    ensures AllFit(a + b, ta + tb)
  {
    forall i | 0 <= i < |a + b| ensures Fits((a + b)[i], (ta + tb)[i]) {
      if i >= |a| {
        assert (a + b)[i] == b[i - |a|] && (ta + tb)[i] == tb[i - |a|];
      }
    }
  }

  lemma NotCampaignKey(keyName: string, k: string)
    requires keyName == LineItemKey || keyName == CreativeKey
    requires IsPrefix(keyName + "_", k)
    ensures !IsPrefix("campaign_", k)
  {
    if keyName == LineItemKey {
      assert k[0] == 'l';
    } else {
      assert k[1] == 'r';
    }
  }

  /** Adding line item or creative columns leaves the campaign part alone. */
  lemma UpdateKeepsCampaign(acc: Record, c: Record, payload: Record, cols: seq<string>, keyName: string)
    requires keyName == LineItemKey || keyName == CreativeKey
    requires CampaignPart(acc, c)
    ensures CampaignPart(acc + ColumnValues(payload, cols, keyName), c)
  {
    var m := ColumnValues(payload, cols, keyName);
    ColumnValuesPrefix(payload, cols, keyName);
    ColumnValuesPrefix(c, CustomColumnNames().campaign, CampaignKey);
    forall k | k in CampaignValues(c) ensures k !in m {
      assert IsPrefix("campaign_", k);
      if k in m {
        NotCampaignKey(keyName, k);
      }
    }
    forall k | k in acc + m && IsPrefix("campaign_", k) ensures k in CampaignValues(c) {
      if k in m {
        NotCampaignKey(keyName, k);
      }
    }
  }

  lemma NotLineItemKey(k: string)
    requires IsPrefix(CreativeKey + "_", k)
    ensures !IsPrefix(LineItemKey + "_", k)
  {
    assert k[0] == 'c';
  }

  /** Adding creative columns leaves the line item's columns alone. */
  lemma UpdateKeepsLineItem(acc: Record, li: Record, cr: Record)
    requires SubMap(LineItemValues(li), acc)
    ensures SubMap(LineItemValues(li), acc + CreativeValues(cr))
  {
    ColumnValuesPrefix(cr, CustomColumnNames().creative, CreativeKey);
    ColumnValuesPrefix(li, CustomColumnNames().lineItem, LineItemKey);
    forall k | k in LineItemValues(li) ensures k !in CreativeValues(cr) {
      if k in CreativeValues(cr) {
        NotLineItemKey(k);
      }
    }
  }

  lemma UpdateHas(acc: Record, m: Record)
    ensures SubMap(m, acc + m)
  {
  }

  lemma {:induction false} LinkFoldFits(ci: nat, c: Record, li: Record, acc: Record, links: seq<Record>, creatives: seq<Record>)
    requires CampaignPart(acc, c) && SubMap(LineItemValues(li), acc)
    ensures AllFit(LinkFold(acc, links, creatives).out, LinkTriples(ci, c, li, links, creatives))
    ensures CampaignPart(LinkFold(acc, links, creatives).acc, c)
    ensures SubMap(LineItemValues(li), LinkFold(acc, links, creatives).acc)
    decreases |links|
  {
    if |links| > 0 {
      match LinkedCreative(creatives, links[0])
      case Some(cr) =>
        var acc1 := acc + CreativeValues(cr);
        UpdateKeepsCampaign(acc, c, cr, CustomColumnNames().creative, CreativeKey);
        UpdateKeepsLineItem(acc, li, cr);
        UpdateHas(acc, CreativeValues(cr));
        LinkFoldFits(ci, c, li, acc1, links[1..], creatives);
        LinkedCreativeFits(ci, c, li, acc, links, creatives, cr);
      case None =>
        LinkFoldFits(ci, c, li, acc, links[1..], creatives);
    }
  }

  /** One step of LinkFoldFits: a link whose creative is found. */
  lemma LinkedCreativeFits(ci: nat, c: Record, li: Record, acc: Record, links: seq<Record>, creatives: seq<Record>, cr: Record)
    requires |links| > 0 && LinkedCreative(creatives, links[0]) == Some(cr)
    requires var acc1 := acc + CreativeValues(cr);
      CampaignPart(acc1, c) && SubMap(LineItemValues(li), acc1) && SubMap(CreativeValues(cr), acc1)
    requires AllFit(LinkFold(acc + CreativeValues(cr), links[1..], creatives).out, LinkTriples(ci, c, li, links[1..], creatives))
    ensures AllFit(LinkFold(acc, links, creatives).out, LinkTriples(ci, c, li, links, creatives))
    ensures LinkFold(acc, links, creatives).acc == LinkFold(acc + CreativeValues(cr), links[1..], creatives).acc
  {
    var acc1 := acc + CreativeValues(cr);
    var rest := LinkFold(acc1, links[1..], creatives);
    var j := Joined(ci, c, li, cr);
    assert LinkFold(acc, links, creatives) == Fold(rest.acc, [acc1] + rest.out);
    assert LinkTriples(ci, c, li, links, creatives) == [j] + LinkTriples(ci, c, li, links[1..], creatives);
    assert Fits(acc1, j);
    assert AllFit([acc1], [j]);
    AllFitConcat([acc1], [j], rest.out, LinkTriples(ci, c, li, links[1..], creatives));
  }

  lemma {:induction false} LineItemFoldFits(ci: nat, c: Record, acc: Record, lis: seq<Record>, links: seq<Record>, creatives: seq<Record>)
    requires CampaignPart(acc, c)
    ensures AllFit(LineItemFold(acc, lis, links, creatives).out, LineItemTriples(ci, c, lis, links, creatives))
    ensures CampaignPart(LineItemFold(acc, lis, links, creatives).acc, c)
    decreases |lis|
  {
    if |lis| > 0 {
      var acc1 := acc + LineItemValues(lis[0]);
      UpdateKeepsCampaign(acc, c, lis[0], CustomColumnNames().lineItem, LineItemKey);
      var f := LinkFold(acc1, LinksOf(links, lis[0]), creatives);
      LinkFoldFits(ci, c, lis[0], acc1, LinksOf(links, lis[0]), creatives);
      LineItemFoldFits(ci, c, f.acc, lis[1..], links, creatives);
      AllFitConcat(f.out, LinkTriples(ci, c, lis[0], LinksOf(links, lis[0]), creatives),
                   LineItemFold(f.acc, lis[1..], links, creatives).out, LineItemTriples(ci, c, lis[1..], links, creatives));
    }
  }

  /** consolidated_reports_list has one record per joined (campaign, line
      item, creative), in join order, and each record carries the campaign's
      columns and no other campaign_ key, the line item's columns and the
      creative's columns. */
  lemma {:induction false} ConsolidateFits(base: nat, campaigns: seq<Record>, lineItems: seq<Record>, links: seq<Record>,
                                           creatives: seq<Record>)
    ensures AllFit(Consolidate(campaigns, lineItems, links, creatives), JoinTriples(base, campaigns, lineItems, links, creatives))
    decreases |campaigns|
  {
    if |campaigns| > 0 {
      var c := campaigns[0];
      LineItemFoldFits(base, c, CampaignValues(c), LineItemsOf(lineItems, c), links, creatives);
      ConsolidateFits(base + 1, campaigns[1..], lineItems, links, creatives);
      AllFitConcat(CampaignRecords(c, lineItems, links, creatives),
                   LineItemTriples(base, c, LineItemsOf(lineItems, c), links, creatives),
                   Consolidate(campaigns[1..], lineItems, links, creatives),
                   JoinTriples(base + 1, campaigns[1..], lineItems, links, creatives));
    }
  }

  // ---------------------------------------------------------------------
  // Which triples are joined
  // ---------------------------------------------------------------------

  /** A link yields a triple exactly when its creative is known. */
  lemma {:induction false} LinkTriplesMembers(ci: nat, c: Record, li: Record, links: seq<Record>, creatives: seq<Record>)
    ensures forall t :: t in LinkTriples(ci, c, li, links, creatives) ==>
              t.campaignIndex == ci && t.campaign == c && t.lineItem == li &&
              exists l :: l in links && LinkedCreative(creatives, l) == Some(t.creative)
    ensures forall l :: l in links && LinkedCreative(creatives, l).Some? ==>
              Joined(ci, c, li, LinkedCreative(creatives, l).value) in LinkTriples(ci, c, li, links, creatives)
    decreases |links|
  {
    if |links| > 0 {
      LinkTriplesMembers(ci, c, li, links[1..], creatives);
      assert forall l :: l in links ==> l == links[0] || l in links[1..];
    }
  }

  lemma {:induction false} LineItemTriplesMembers(ci: nat, c: Record, lis: seq<Record>, links: seq<Record>, creatives: seq<Record>)
    ensures forall t :: t in LineItemTriples(ci, c, lis, links, creatives) ==>
              t.campaignIndex == ci && t.campaign == c && t.lineItem in lis &&
              exists l :: l in LinksOf(links, t.lineItem) && LinkedCreative(creatives, l) == Some(t.creative)
    ensures forall li, l :: li in lis && l in LinksOf(links, li) && LinkedCreative(creatives, l).Some? ==>
              Joined(ci, c, li, LinkedCreative(creatives, l).value) in LineItemTriples(ci, c, lis, links, creatives)
    decreases |lis|
  {
    if |lis| > 0 {
      LinkTriplesMembers(ci, c, lis[0], LinksOf(links, lis[0]), creatives);
      LineItemTriplesMembers(ci, c, lis[1..], links, creatives);
      assert forall li :: li in lis ==> li == lis[0] || li in lis[1..];
    }
  }

  /** Every triple is a (campaign at its position, line item with that
      campaign_id, link with that line_item_id, first creative with the
      link's creative_id) combination. */
  lemma {:induction false} JoinTriplesSound(base: nat, campaigns: seq<Record>, lineItems: seq<Record>, links: seq<Record>,
                                            creatives: seq<Record>)
    ensures forall t :: t in JoinTriples(base, campaigns, lineItems, links, creatives) ==>
              base <= t.campaignIndex < base + |campaigns| && campaigns[t.campaignIndex - base] == t.campaign &&
              t.lineItem in LineItemsOf(lineItems, t.campaign) &&
              exists l :: l in LinksOf(links, t.lineItem) && LinkedCreative(creatives, l) == Some(t.creative)
    decreases |campaigns|
  {
    if |campaigns| > 0 {
      var c := campaigns[0];
      var block := LineItemTriples(base, c, LineItemsOf(lineItems, c), links, creatives);
      var rest := JoinTriples(base + 1, campaigns[1..], lineItems, links, creatives);
      LineItemTriplesMembers(base, c, LineItemsOf(lineItems, c), links, creatives);
      JoinTriplesSound(base + 1, campaigns[1..], lineItems, links, creatives);
      forall t: Joined | t in block + rest
        ensures base <= t.campaignIndex < base + |campaigns| && campaigns[t.campaignIndex - base] == t.campaign
      {
        if t !in block {
          assert t in rest;
          assert campaigns[t.campaignIndex - base] == campaigns[1..][t.campaignIndex - (base + 1)];
        }
      }
    }
  }

  /** Every such combination is joined. */
  lemma {:induction false} JoinTriplesComplete(base: nat, campaigns: seq<Record>, lineItems: seq<Record>, links: seq<Record>,
                                               creatives: seq<Record>)
    ensures forall i, li, l :: (0 <= i < |campaigns| && li in LineItemsOf(lineItems, campaigns[i]) &&
                                l in LinksOf(links, li) && LinkedCreative(creatives, l).Some?) ==>
              Joined(base + i, campaigns[i], li, LinkedCreative(creatives, l).value) in
                JoinTriples(base, campaigns, lineItems, links, creatives)
    decreases |campaigns|
  {
    if |campaigns| > 0 {
      var c := campaigns[0];
      LineItemTriplesMembers(base, c, LineItemsOf(lineItems, c), links, creatives);
      JoinTriplesComplete(base + 1, campaigns[1..], lineItems, links, creatives);
      forall i, li, l | 0 <= i < |campaigns| && li in LineItemsOf(lineItems, campaigns[i]) &&
                        l in LinksOf(links, li) && LinkedCreative(creatives, l).Some?
        ensures Joined(base + i, campaigns[i], li, LinkedCreative(creatives, l).value) in
                  JoinTriples(base, campaigns, lineItems, links, creatives)
      {
        if i > 0 {
          assert campaigns[i] == campaigns[1..][i - 1];
          assert base + i == (base + 1) + (i - 1);
        }
      }
    }
  }

  /** Campaign positions in JoinTriples start at `base`. */
  lemma {:induction false} JoinTriplesIndexBound(base: nat, campaigns: seq<Record>, lineItems: seq<Record>, links: seq<Record>,
                                                 creatives: seq<Record>)
    ensures forall t :: t in JoinTriples(base, campaigns, lineItems, links, creatives) ==> base <= t.campaignIndex
    decreases |campaigns|
  {
    if |campaigns| > 0 {
      LineItemTriplesIndex(base, campaigns[0], LineItemsOf(lineItems, campaigns[0]), links, creatives);
      JoinTriplesIndexBound(base + 1, campaigns[1..], lineItems, links, creatives);
    }
  }

  // ---------------------------------------------------------------------
  // consolidated_data is never reset inside a campaign
  // ---------------------------------------------------------------------

  predicate Growing(out: seq<Record>) {
    forall i, j :: 0 <= i < j < |out| ==> out[i].Keys <= out[j].Keys
  }

  predicate Between(lo: Record, out: seq<Record>, hi: Record) {
    forall i :: 0 <= i < |out| ==> lo.Keys <= out[i].Keys <= hi.Keys
  }

  lemma UpdateGrows(acc: Record, m: Record)
    ensures acc.Keys <= (acc + m).Keys
  {
  }

  lemma ConsGrows(lo: Record, first: Record, rest: seq<Record>, hi: Record)
    requires lo.Keys <= first.Keys && Between(first, rest, hi) && Growing(rest) && first.Keys <= hi.Keys
    ensures Between(lo, [first] + rest, hi) && Growing([first] + rest)
  {
    assert forall i :: 1 <= i < |rest| + 1 ==> ([first] + rest)[i] == rest[i - 1];
  }

  lemma ConcatGrows(lo: Record, a: seq<Record>, mid: Record, b: seq<Record>, hi: Record)
    requires Between(lo, a, mid) && Growing(a) && Between(mid, b, hi) && Growing(b)
    requires lo.Keys <= mid.Keys <= hi.Keys
    ensures Between(lo, a + b, hi) && Growing(a + b)
  {
    assert forall i :: |a| <= i < |a| + |b| ==> (a + b)[i] == b[i - |a|];
  }

  lemma {:induction false} LinkFoldGrows(acc: Record, links: seq<Record>, creatives: seq<Record>)
    ensures var f := LinkFold(acc, links, creatives);
            acc.Keys <= f.acc.Keys && Between(acc, f.out, f.acc) && Growing(f.out)
    decreases |links|
  {
    if |links| > 0 {
      match LinkedCreative(creatives, links[0])
      case Some(cr) =>
        var acc1 := acc + CreativeValues(cr);
        LinkFoldGrows(acc1, links[1..], creatives);
        var rest := LinkFold(acc1, links[1..], creatives);
        assert LinkFold(acc, links, creatives) == Fold(rest.acc, [acc1] + rest.out);
        UpdateGrows(acc, CreativeValues(cr));
        ConsGrows(acc, acc1, rest.out, rest.acc);
      case None =>
        LinkFoldGrows(acc, links[1..], creatives);
    }
  }

  lemma {:induction false} LineItemFoldGrows(acc: Record, lis: seq<Record>, links: seq<Record>, creatives: seq<Record>)
    ensures var f := LineItemFold(acc, lis, links, creatives);
            acc.Keys <= f.acc.Keys && Between(acc, f.out, f.acc) && Growing(f.out)
    decreases |lis|
  {
    if |lis| > 0 {
      var acc1 := acc + LineItemValues(lis[0]);
      var f := LinkFold(acc1, LinksOf(links, lis[0]), creatives);
      LinkFoldGrows(acc1, LinksOf(links, lis[0]), creatives);
      LineItemFoldGrows(f.acc, lis[1..], links, creatives);
      var rest := LineItemFold(f.acc, lis[1..], links, creatives);
      UpdateGrows(acc, LineItemValues(lis[0]));
      ConcatGrows(acc, f.out, f.acc, rest.out, rest.acc);
    }
  }

  /** All triples of the block of campaign position `ci`. */
  lemma {:induction false} LineItemTriplesIndex(ci: nat, c: Record, lis: seq<Record>, links: seq<Record>, creatives: seq<Record>)
    ensures forall t :: t in LineItemTriples(ci, c, lis, links, creatives) ==> t.campaignIndex == ci
  {
    LineItemTriplesMembers(ci, c, lis, links, creatives);
  }

  /** Records joined for the same campaign position gain keys in order. */
  predicate GrowsPerCampaign(out: seq<Record>, ts: seq<Joined>) {
    |out| == |ts| &&
    forall i, j :: 0 <= i < j < |out| && ts[i].campaignIndex == ts[j].campaignIndex ==> out[i].Keys <= out[j].Keys
  }

  lemma GrowsPerCampaignConcat(ci: nat, block: seq<Record>, tblock: seq<Joined>, rest: seq<Record>, trest: seq<Joined>)
    requires |block| == |tblock| && Growing(block) && GrowsPerCampaign(rest, trest)
    requires forall t :: t in tblock ==> t.campaignIndex == ci
    requires forall t :: t in trest ==> ci < t.campaignIndex
    ensures GrowsPerCampaign(block + rest, tblock + trest)
  {
    var out, ts := block + rest, tblock + trest;
    assert forall i, j :: 0 <= i < |block| <= j < |out| ==> ts[i].campaignIndex < ts[j].campaignIndex by {
      forall i, j | 0 <= i < |block| <= j < |out| ensures ts[i].campaignIndex < ts[j].campaignIndex {
        assert ts[i] == tblock[i] && ts[i] in tblock;
        assert ts[j] == trest[j - |block|] && ts[j] in trest;
      }
    }
    forall i, j | 0 <= i < j < |out| && ts[i].campaignIndex == ts[j].campaignIndex
      ensures out[i].Keys <= out[j].Keys
    {
      if j < |block| {
        assert out[i] == block[i] && out[j] == block[j];
      } else {
        assert out[i] == rest[i - |block|] && out[j] == rest[j - |block|];
        assert ts[i] == trest[i - |block|] && ts[j] == trest[j - |block|];
      }
    }
  }

  /** Records of one campaign only ever gain keys: a column set by an
      earlier line item or creative of the campaign stays in every later
      record of that campaign, even when the later line item or creative
      lacks it. */
  lemma {:induction false} KeysGrowWithinCampaign(base: nat, campaigns: seq<Record>, lineItems: seq<Record>, links: seq<Record>,
                                                  creatives: seq<Record>)
    ensures GrowsPerCampaign(Consolidate(campaigns, lineItems, links, creatives),
                             JoinTriples(base, campaigns, lineItems, links, creatives))
    decreases |campaigns|
  {
    if |campaigns| > 0 {
      var c := campaigns[0];
      LineItemFoldGrows(CampaignValues(c), LineItemsOf(lineItems, c), links, creatives);
      LineItemTriplesIndex(base, c, LineItemsOf(lineItems, c), links, creatives);
      JoinTriplesIndexBound(base + 1, campaigns[1..], lineItems, links, creatives);
      KeysGrowWithinCampaign(base + 1, campaigns[1..], lineItems, links, creatives);
      LineItemFoldFits(base, c, CampaignValues(c), LineItemsOf(lineItems, c), links, creatives);
      GrowsPerCampaignConcat(base, CampaignRecords(c, lineItems, links, creatives),
                             LineItemTriples(base, c, LineItemsOf(lineItems, c), links, creatives),
                             Consolidate(campaigns[1..], lineItems, links, creatives),
                             JoinTriples(base + 1, campaigns[1..], lineItems, links, creatives));
    }
  }

  // ---------------------------------------------------------------------
  // The processing loop of generate_consolidated_report
  // ---------------------------------------------------------------------

  /** The innermost loop: one creative link after another, updating the
      accumulator and appending a copy whenever the creative is found. */
  method JoinLinks(acc: Record, ls: seq<Record>, creatives: seq<Record>, records: seq<Record>)
    returns (consolidated: Record, out: seq<Record>)
    ensures consolidated == LinkFold(acc, ls, creatives).acc
    ensures out == records + LinkFold(acc, ls, creatives).out
  {
    consolidated, out := acc, records;
    for k := 0 to |ls|
      invariant records + LinkFold(acc, ls, creatives).out == out + LinkFold(consolidated, ls[k..], creatives).out
      invariant LinkFold(acc, ls, creatives).acc == LinkFold(consolidated, ls[k..], creatives).acc
    {
      assert ls[k..][1..] == ls[k + 1..];
      var creative := LinkedCreative(creatives, ls[k]);
      if creative.Some? {
        consolidated := consolidated + CreativeValues(creative.value);
        out := out + [consolidated];
      }
    }
  }

  /** The middle loop: the line items of one campaign. */
  method JoinLineItems(acc: Record, lis: seq<Record>, links: seq<Record>, creatives: seq<Record>, records: seq<Record>)
    returns (out: seq<Record>)
    ensures out == records + LineItemFold(acc, lis, links, creatives).out
  {
    var consolidated := acc;
    out := records;
    for j := 0 to |lis|
      invariant records + LineItemFold(acc, lis, links, creatives).out ==
                out + LineItemFold(consolidated, lis[j..], links, creatives).out
    {
      LineItemFoldStep(consolidated, lis, j, links, creatives);
      ghost var before := out;
      ghost var f := LinkFold(consolidated + LineItemValues(lis[j]), LinksOf(links, lis[j]), creatives);
      consolidated := consolidated + LineItemValues(lis[j]);
      consolidated, out := JoinLinks(consolidated, LinksOf(links, lis[j]), creatives, out);
      AppendAssoc(before, f.out, LineItemFold(f.acc, lis[j + 1..], links, creatives).out);
    }
  }

  lemma LineItemFoldStep(acc: Record, lis: seq<Record>, j: nat, links: seq<Record>, creatives: seq<Record>)
    requires j < |lis|
    ensures var f := LinkFold(acc + LineItemValues(lis[j]), LinksOf(links, lis[j]), creatives);
            LineItemFold(acc, lis[j..], links, creatives).out == f.out + LineItemFold(f.acc, lis[j + 1..], links, creatives).out
  {
    assert lis[j..][1..] == lis[j + 1..];
  }

  /** One pass of the outer loop: a fresh accumulator holding the
      campaign's columns, then the line items of the campaign. */
  method JoinCampaign(campaign: Record, lineItems: seq<Record>, links: seq<Record>, creatives: seq<Record>, records: seq<Record>)
    returns (out: seq<Record>)
    ensures out == records + CampaignRecords(campaign, lineItems, links, creatives)
  {
    var consolidated := CampaignValues(campaign);
    var lis := LineItemsOf(lineItems, campaign);
    out := JoinLineItems(consolidated, lis, links, creatives, records);
  }

  lemma AppendAssoc(a: seq<Record>, b: seq<Record>, c: seq<Record>)
    ensures (a + b) + c == a + (b + c)
  {
  }

  lemma ConsolidateStep(campaigns: seq<Record>, ci: nat, lineItems: seq<Record>, links: seq<Record>, creatives: seq<Record>)
    requires ci < |campaigns|
    ensures Consolidate(campaigns[ci..], lineItems, links, creatives) ==
            CampaignRecords(campaigns[ci], lineItems, links, creatives) +
            Consolidate(campaigns[ci + 1..], lineItems, links, creatives)
  {
    assert campaigns[ci..][1..] == campaigns[ci + 1..];
  }

  /** The processing loop of generate_consolidated_report: a fresh
      accumulator per campaign, updated with each of its line items and
      each creative found, and a copy appended per creative. */
  method GenerateConsolidated(campaigns: seq<Record>, lineItems: seq<Record>, links: seq<Record>, creatives: seq<Record>)
    returns (records: seq<Record>)
    ensures records == Consolidate(campaigns, lineItems, links, creatives)
  {
    records := [];
    assert campaigns[0..] == campaigns;
    for ci := 0 to |campaigns|
      invariant records + Consolidate(campaigns[ci..], lineItems, links, creatives) ==
                Consolidate(campaigns, lineItems, links, creatives)
    {
      ConsolidateStep(campaigns, ci, lineItems, links, creatives);
      ghost var before := records;
      records := JoinCampaign(campaigns[ci], lineItems, links, creatives, records);
      AppendAssoc(before, CampaignRecords(campaigns[ci], lineItems, links, creatives),
                  Consolidate(campaigns[ci + 1..], lineItems, links, creatives));
    }
  }
}
