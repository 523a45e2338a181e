/**
 * The back end's two rule tables, which map a lower-case phrase to the scope tiles it
 * implies. Python dictionaries keep insertion order, so each table is an ordered list of rules.
 */
module Taxonomy {
  import opened Wrappers
  import opened Strings
  import opened StringOrder
  import ScopeCatalog

  /** One dictionary entry: a phrase and the tile ids (modules) it triggers. */
  datatype Rule = Rule(key: string, modules: seq<string>)

  /** Broad themes, matched against a pain card's title. */
  const PainThemeRules: seq<Rule> := [
    Rule("competition", ["FIN-CTRL"]),
    Rule("market volatility", ["FIN-FPA"]),
    Rule("cost management", ["FIN-CTRL"]),
    Rule("revenue recognition", ["COM-RAR"]),
    Rule("cash flow", ["FIN-TCM"]),
    Rule("churn", ["COM-OM"]),
    Rule("forecasting", ["FIN-FPA", "SCM-DPF"])
  ]

  /** Granular keywords, matched against a pain card's title and blurb. */
  const KeywordRules: seq<Rule> := [
    Rule("financial data", ["FIN-MDM"]),
    Rule("financial reporting", ["FIN-CTRL", "FIN-FPA"]),
    Rule("financial close", ["FIN-CTRL"]),
    Rule("closing process", ["FIN-CTRL"]),
    Rule("margin", ["FIN-CTRL"]),
    Rule("profitability", ["FIN-CTRL"]),
    Rule("procure-to-pay", ["FIN-P2P"]),
    Rule("cash management", ["FIN-TCM"]),
    Rule("treasury", ["FIN-TCM"]),
    Rule("invoice", ["COM-INV"]),
    Rule("revenue", ["COM-RAR"]),
    Rule("supply chain", ["SCM-DPF", "SCM-IM", "SCM-WMS", "SCM-TRA"]),
    Rule("inventory", ["SCM-IM"]),
    Rule("procurement", ["FIN-P2P", "SCM-DPF"]),
    Rule("logistics", ["SCM-TRA", "SCM-WMS"]),
    Rule("transportation", ["SCM-TRA"]),
    Rule("warehouse", ["SCM-WMS"]),
    Rule("distribution", ["SCM-WMS"]),
    Rule("planning", ["OPS-PP", "SCM-DPF"]),
    Rule("manufacturing", ["OPS-EXEC"]),
    Rule("production", ["OPS-PP", "OPS-EXEC"]),
    Rule("quality", ["OPS-QM"]),
    Rule("asset maintenance", ["OPS-PM"]),
    Rule("customer", ["COM-OM"]),
    Rule("order fulfillment", ["COM-OM"]),
    Rule("available-to-promise", ["COM-ATP"]),
    Rule("reporting compliance", ["COM-RAR", "FIN-CTRL"]),
    Rule("master data", ["FIN-MDM"]),
    Rule("inconsistent data", ["FIN-MDM"]),
    Rule("fragmented data", ["FIN-MDM"])
  ]

  /** Dictionary lookup: the modules of the rule with this key, if there is one. */
  function Lookup(rules: seq<Rule>, key: string): (r: Option<seq<string>>)
    ensures r.Some? <==> exists i :: 0 <= i < |rules| && rules[i].key == key
    ensures r.Some? ==> exists i :: 0 <= i < |rules| && rules[i] == Rule(key, r.value)
  {
    if rules == [] then None
    else if rules[0].key == key then Some(rules[0].modules)
    else
      var r := Lookup(rules[1..], key);
      assert forall i :: 0 <= i < |rules| - 1 ==> rules[1..][i] == rules[i + 1];
      r
  }

  /** Keys are distinct, as dictionary keys are. */
  ghost predicate DistinctKeys(rules: seq<Rule>) {
    forall i, j :: 0 <= i < j < |rules| ==> rules[i].key != rules[j].key
  }

  /**
   * What the engine relies on for one entry: the key is lower-case (so it can match
   * lower-cased text) and it triggers at least one tile, none twice.
   */
  ghost predicate RuleOk(r: Rule) {
    IsLowerCased(r.key) && |r.modules| > 0 && NoDuplicates(r.modules)
  }

  ghost predicate WellFormed(rules: seq<Rule>) {
    DistinctKeys(rules) && forall r :: r in rules ==> RuleOk(r)
  }

  /** Looking up a rule's key finds that rule's modules when no earlier rule has the same key. */
  lemma {:induction false} LookupFindsRule(rules: seq<Rule>, i: nat)
    requires i < |rules|
    requires forall j :: 0 <= j < i ==> rules[j].key != rules[i].key
    ensures Lookup(rules, rules[i].key) == Some(rules[i].modules)
  {
    if i > 0 {
      assert rules[1..][i - 1] == rules[i];
      LookupFindsRule(rules[1..], i - 1);
    }
  }


  /** Some rule of the table triggers tile `m`. */
  ghost predicate UsedBy(rules: seq<Rule>, m: string) {
    exists i :: 0 <= i < |rules| && m in rules[i].modules
  }

  // The facts below are about constant data. Each lemma checks a small part of a table,
  // so that every proof stays small; the WellFormed lemmas put the parts together.

  /** The keys of the theme table, written out. */
  const PainThemeKeyList: seq<string> := [
    "competition", "market volatility", "cost management", "revenue recognition",
    "cash flow", "churn", "forecasting"
  ]

  /** The keys of the keyword table, written out. */
  const KeywordKeyList: seq<string> := [
    "financial data", "financial reporting", "financial close", "closing process", "margin",
    "profitability", "procure-to-pay", "cash management", "treasury", "invoice", "revenue",
    "supply chain", "inventory", "procurement", "logistics", "transportation", "warehouse",
    "distribution", "planning", "manufacturing", "production", "quality", "asset maintenance",
    "customer", "order fulfillment", "available-to-promise", "reporting compliance",
    "master data", "inconsistent data", "fragmented data"
  ]

  lemma PainThemeRulesWellFormed()
    ensures WellFormed(PainThemeRules)
  {
    PainThemeKeys();
    PainThemeKeysLowerCased();
    PainThemeModulesOk();
  }

  lemma PainThemeKeys()
    ensures |PainThemeRules| == |PainThemeKeyList|
    ensures forall i :: 0 <= i < |PainThemeRules| ==> PainThemeRules[i].key == PainThemeKeyList[i]
    ensures NoDuplicates(PainThemeKeyList)
  {
  }

  lemma PainThemeKeysLowerCased()
    ensures forall i :: 0 <= i < |PainThemeKeyList| ==> IsLowerCased(PainThemeKeyList[i])
  {
  }

  lemma PainThemeModulesOk()
    ensures forall i :: 0 <= i < |PainThemeRules| ==>
              |PainThemeRules[i].modules| > 0 && NoDuplicates(PainThemeRules[i].modules)
  {
  }

  lemma KeywordRulesWellFormed()
    ensures WellFormed(KeywordRules)
  {
    KeywordKeys();
    KeywordKeyListDistinct();
    KeywordKeysLowerCased0();
    KeywordKeysLowerCased8();
    KeywordKeysLowerCased16();
    KeywordKeysLowerCased23();
    KeywordModulesOk();
  }

  lemma KeywordKeys()
    ensures |KeywordRules| == |KeywordKeyList| == 30
    ensures forall i :: 0 <= i < |KeywordRules| ==> KeywordRules[i].key == KeywordKeyList[i]
  {
  }

  lemma KeywordKeyListDistinct()
    ensures NoDuplicates(KeywordKeyList)
  {
    KeywordKeysDistinct0();
    KeywordKeysDistinct10();
    KeywordKeysDistinct20();
    KeywordKeysDistinct0And10();
    KeywordKeysDistinct0And20();
    KeywordKeysDistinct10And20();
  }

  // The thirty keys are compared in blocks of ten, so that no single proof
  // obligation has to tell all 435 pairs apart.
  lemma KeywordKeysDistinct0()
    ensures forall i, j :: 0 <= i < j < 10 ==> KeywordKeyList[i] != KeywordKeyList[j]
  {
  }

  lemma KeywordKeysDistinct10()
    ensures forall i, j :: 10 <= i < j < 20 ==> KeywordKeyList[i] != KeywordKeyList[j]
  {
  }

  lemma KeywordKeysDistinct20()
    ensures forall i, j :: 20 <= i < j < 30 ==> KeywordKeyList[i] != KeywordKeyList[j]
  {
  }

  lemma KeywordKeysDistinct0And10()
    ensures forall i, j :: 0 <= i < 10 <= j < 20 ==> KeywordKeyList[i] != KeywordKeyList[j]
  {
  }

  lemma KeywordKeysDistinct0And20()
    ensures forall i, j :: 0 <= i < 10 && 20 <= j < 30 ==> KeywordKeyList[i] != KeywordKeyList[j]
  {
  }

  lemma KeywordKeysDistinct10And20()
    ensures forall i, j :: 10 <= i < 20 <= j < 30 ==> KeywordKeyList[i] != KeywordKeyList[j]
  {
  }

  lemma KeywordKeysLowerCased0()
    ensures forall i :: 0 <= i < 8 ==> IsLowerCased(KeywordKeyList[i])
  {
  }

  lemma KeywordKeysLowerCased8()
    ensures forall i :: 8 <= i < 16 ==> IsLowerCased(KeywordKeyList[i])
  {
  }

  lemma KeywordKeysLowerCased16()
    ensures forall i :: 16 <= i < 23 ==> IsLowerCased(KeywordKeyList[i])
  {
  }

  lemma KeywordKeysLowerCased23()
    ensures forall i :: 23 <= i < 30 ==> IsLowerCased(KeywordKeyList[i])
  {
  }

  lemma KeywordModulesOk()
    ensures forall i :: 0 <= i < |KeywordRules| ==>
              |KeywordRules[i].modules| > 0 && NoDuplicates(KeywordRules[i].modules)
  {
  }

  /** The two tables together use exactly the seventeen catalog tiles. */
  lemma RulesCoverCatalog()
    ensures forall m :: UsedBy(PainThemeRules, m) || UsedBy(KeywordRules, m) <==> m in ScopeCatalog.CatalogIdList
  {
    RulesUseCatalogTiles();
    FinanceTilesUsed();
    SupplyChainTilesUsed();
    OperationsAndOrderTilesUsed();
    ThreeSlices(ScopeCatalog.CatalogIdList, 5, 9);
  }

  /** Every element of `s` lies in one of the three slices cut at `a` and `b`. */
  lemma ThreeSlices(s: seq<string>, a: nat, b: nat)
    requires a <= b <= |s|
    ensures forall m :: m in s ==> m in s[..a] || m in s[a..b] || m in s[b..]
  {
    forall m | m in s
      ensures m in s[..a] || m in s[a..b] || m in s[b..]
    {
      var k :| 0 <= k < |s| && s[k] == m;
      if k < a {
        assert s[..a][k] == m;
      } else if k < b {
        assert s[a..b][k - a] == m;
      } else {
        assert s[b..][k - b] == m;
      }
    }
  }

  lemma RulesUseCatalogTiles()
    ensures forall i, m :: 0 <= i < |PainThemeRules| && m in PainThemeRules[i].modules ==> m in ScopeCatalog.CatalogIdList
    ensures forall i, m :: 0 <= i < |KeywordRules| && m in KeywordRules[i].modules ==> m in ScopeCatalog.CatalogIdList
  {
  }

  lemma FinanceTilesUsed()
    ensures forall m :: m in ScopeCatalog.CatalogIdList[..5] ==> UsedBy(KeywordRules, m)
  {
    var k := KeywordRules;
    assert "FIN-MDM" in k[0].modules && "FIN-CTRL" in k[2].modules && "FIN-FPA" in k[1].modules;
    assert "FIN-TCM" in k[7].modules && "FIN-P2P" in k[6].modules;
  }

  lemma SupplyChainTilesUsed()
    ensures forall m :: m in ScopeCatalog.CatalogIdList[5..9] ==> UsedBy(KeywordRules, m)
  {
    var k := KeywordRules;
    assert "SCM-DPF" in k[11].modules && "SCM-IM" in k[11].modules;
    assert "SCM-WMS" in k[11].modules && "SCM-TRA" in k[11].modules;
  }

  lemma OperationsAndOrderTilesUsed()
    ensures forall m :: m in ScopeCatalog.CatalogIdList[9..] ==> UsedBy(KeywordRules, m)
  {
    var k := KeywordRules;
    assert "OPS-PP" in k[18].modules && "OPS-EXEC" in k[19].modules;
    assert "OPS-QM" in k[21].modules && "OPS-PM" in k[22].modules;
    assert "COM-ATP" in k[25].modules && "COM-OM" in k[23].modules;
    assert "COM-INV" in k[9].modules && "COM-RAR" in k[10].modules;
  }

  /** 'supply chain' triggers the four supply-chain tiles. */
  lemma SupplyChainRule()
    ensures Lookup(KeywordRules, "supply chain") == Some(["SCM-DPF", "SCM-IM", "SCM-WMS", "SCM-TRA"])
  {
    KeywordKeys();
    assert KeywordRules[11] == Rule("supply chain", ["SCM-DPF", "SCM-IM", "SCM-WMS", "SCM-TRA"]);
    assert forall j :: 0 <= j < 11 ==> KeywordKeyList[j] != "supply chain";
    LookupFindsRule(KeywordRules, 11);
  }

  /** 'forecasting' triggers financial planning and demand planning. */
  lemma ForecastingRule()
    ensures Lookup(PainThemeRules, "forecasting") == Some(["FIN-FPA", "SCM-DPF"])
  {
    PainThemeKeys();
    assert PainThemeRules[6] == Rule("forecasting", ["FIN-FPA", "SCM-DPF"]);
    assert forall j :: 0 <= j < 6 ==> PainThemeKeyList[j] != "forecasting";
    LookupFindsRule(PainThemeRules, 6);
  }
}
