/**
 * The company classifier of the back end: a company profile (a dictionary of
 * text fields) is sorted into one of five industry groups, tested in a fixed
 * priority order, and into one of two geographic scopes.
 */
module Classifier {
  import opened Strings

  /** A company profile; a key that is absent reads as the empty string. */
  type Profile = map<string, string>

  function Field(p: Profile, key: string): string {
    if key in p then p[key] else ""
  }

  const Tmt := "TMT (Technology, Media & Telecom)"
  const Fsi := "FSI (Financial Services Industry)"
  const Lshc := "LSHC (Life Sciences & Health Care)"
  const ProfessionalServices := "Professional Services"
  const ConsumerIndustrial := "C&IP (Consumer & Industrial Products)"

  const IndustryGroups: seq<string> := [Tmt, Fsi, Lshc, ProfessionalServices, ConsumerIndustrial]

  const UsOnly := "US-based only"
  const MultiCountry := "More than 5 countries"

  /** The words whose mention in the description means operations outside the US. */
  const GlobalWords: seq<string> := ["global", "international", "worldwide"]

  datatype Classification = Classification(industry: string, geoScope: string)

  /** The industry group for an already lower-cased sector and industry. */
  function IndustryGroup(sector: string, industry: string): (r: string)
    ensures r in IndustryGroups
  {
    if Contains(sector, "tech") || Contains(sector, "communication") || Contains(industry, "software")
       || Contains(industry, "media") || Contains(industry, "entertainment") then Tmt
    else if Contains(sector, "financial") || Contains(industry, "insurance")
       || Contains(industry, "asset management") then Fsi
    else if Contains(sector, "healthcare") || Contains(industry, "pharmaceuticals")
       || Contains(industry, "biotechnology") then Lshc
    else if Contains(sector, "services") && Contains(industry, "business") then ProfessionalServices
    else ConsumerIndustrial
  }

  /** The geographic scope for an upper-cased country and a lower-cased description. */
  function GeoScope(country: string, description: string): (r: string)
    ensures r == UsOnly || r == MultiCountry
  {
    if country == "US" && !Contains(description, "global") && !Contains(description, "international")
       && !Contains(description, "worldwide") then UsOnly
    else MultiCountry
  }

  /** `classify_company`: the pair (industry group, geographic scope) of a profile. */
  function ClassifyCompany(p: Profile): (c: Classification)
    ensures c.industry in IndustryGroups
    ensures c.geoScope == UsOnly || c.geoScope == MultiCountry
  {
    var industry := Lower(Field(p, "industry"));
    var sector := Lower(Field(p, "sector"));
    var description := Lower(Field(p, "description"));
    var country := Upper(Field(p, "country"));
    Classification(IndustryGroup(sector, industry), GeoScope(country, description))
  }

  // ------------------------------------------------------------ reference definitions

  /** `word` is a substring of `text`, stated by position. */
  ghost predicate Mentions(text: string, word: string) {
    exists i :: OccursAt(text, word, i)
  }

  ghost predicate TmtSignal(sector: string, industry: string) {
    Mentions(sector, "tech") || Mentions(sector, "communication") || Mentions(industry, "software")
    || Mentions(industry, "media") || Mentions(industry, "entertainment")
  }

  ghost predicate FsiSignal(sector: string, industry: string) {
    Mentions(sector, "financial") || Mentions(industry, "insurance") || Mentions(industry, "asset management")
  }

  ghost predicate LshcSignal(sector: string, industry: string) {
    Mentions(sector, "healthcare") || Mentions(industry, "pharmaceuticals") || Mentions(industry, "biotechnology")
  }

  ghost predicate ServicesSignal(sector: string, industry: string) {
    Mentions(sector, "services") && Mentions(industry, "business")
  }

  lemma IndustryGroupsDistinct()
    ensures forall i, j :: 0 <= i < j < |IndustryGroups| ==> IndustryGroups[i] != IndustryGroups[j]
  {
  }

  /** `Contains` and `Mentions` agree on the words the industry rules look for. */
  lemma IndustryWordsFound(s: string, i: string)
    ensures Contains(s, "tech") == Mentions(s, "tech")
    ensures Contains(s, "communication") == Mentions(s, "communication")
    ensures Contains(i, "software") == Mentions(i, "software")
    ensures Contains(i, "media") == Mentions(i, "media")
    ensures Contains(i, "entertainment") == Mentions(i, "entertainment")
    ensures Contains(s, "financial") == Mentions(s, "financial")
    ensures Contains(i, "insurance") == Mentions(i, "insurance")
    ensures Contains(i, "asset management") == Mentions(i, "asset management")
    ensures Contains(s, "healthcare") == Mentions(s, "healthcare")
    ensures Contains(i, "pharmaceuticals") == Mentions(i, "pharmaceuticals")
    ensures Contains(i, "biotechnology") == Mentions(i, "biotechnology")
    ensures Contains(s, "services") == Mentions(s, "services")
    ensures Contains(i, "business") == Mentions(i, "business")
  {
    ContainsIff(s, "tech");
    ContainsIff(s, "communication");
    ContainsIff(i, "software");
    ContainsIff(i, "media");
    ContainsIff(i, "entertainment");
    ContainsIff(s, "financial");
    ContainsIff(i, "insurance");
    ContainsIff(i, "asset management");
    ContainsIff(s, "healthcare");
    ContainsIff(i, "pharmaceuticals");
    ContainsIff(i, "biotechnology");
    ContainsIff(s, "services");
    ContainsIff(i, "business");
  }

  /**
   * The industry groups are tested in priority order and the first signal
   * present wins; with no signal the group is Consumer & Industrial Products.
   */
  lemma IndustryPriority(s: string, i: string)
    ensures IndustryGroup(s, i) == Tmt <==> TmtSignal(s, i)
    ensures IndustryGroup(s, i) == Fsi <==> !TmtSignal(s, i) && FsiSignal(s, i)
    ensures IndustryGroup(s, i) == Lshc <==> !TmtSignal(s, i) && !FsiSignal(s, i) && LshcSignal(s, i)
    ensures IndustryGroup(s, i) == ProfessionalServices <==>
              !TmtSignal(s, i) && !FsiSignal(s, i) && !LshcSignal(s, i) && ServicesSignal(s, i)
    ensures IndustryGroup(s, i) == ConsumerIndustrial <==>
              !TmtSignal(s, i) && !FsiSignal(s, i) && !LshcSignal(s, i) && !ServicesSignal(s, i)
  {
    IndustryWordsFound(s, i);
    IndustryGroupsDistinct();
  }

  /**
   * `classify_company`'s industry group, stated on the profile: the signals are
   * looked for in the case-folded sector and industry, in priority order.
   */
  lemma ClassifyIndustry(p: Profile)
    ensures var s, i := Lower(Field(p, "sector")), Lower(Field(p, "industry"));
      && (ClassifyCompany(p).industry == Tmt <==> TmtSignal(s, i))
      && (ClassifyCompany(p).industry == Fsi <==> !TmtSignal(s, i) && FsiSignal(s, i))
      && (ClassifyCompany(p).industry == Lshc <==> !TmtSignal(s, i) && !FsiSignal(s, i) && LshcSignal(s, i))
      && (ClassifyCompany(p).industry == ProfessionalServices <==>
            !TmtSignal(s, i) && !FsiSignal(s, i) && !LshcSignal(s, i) && ServicesSignal(s, i))
      && (ClassifyCompany(p).industry == ConsumerIndustrial <==>
            !TmtSignal(s, i) && !FsiSignal(s, i) && !LshcSignal(s, i) && !ServicesSignal(s, i))
  {
    IndustryPriority(Lower(Field(p, "sector")), Lower(Field(p, "industry")));
  }

  /**
   * The scope is "US-based only" exactly when the country is "US" and the
   * description mentions none of the global words.
   */
  lemma GeoScopeIff(country: string, description: string)
    ensures GeoScope(country, description) == UsOnly <==>
      country == "US" && forall k :: 0 <= k < |GlobalWords| ==> !Mentions(description, GlobalWords[k])
  {
    ContainsIff(description, "global");
    ContainsIff(description, "international");
    ContainsIff(description, "worldwide");
    assert GlobalWords[0] == "global" && GlobalWords[1] == "international" && GlobalWords[2] == "worldwide";
    assert |GlobalWords| == 3;
  }

  /**
   * `classify_company`'s scope, stated on the profile: "US-based only" exactly when
   * the upper-cased country is "US" and the lower-cased description mentions none
   * of the global words; otherwise "More than 5 countries".
   */
  lemma ClassifyGeoScope(p: Profile)
    ensures ClassifyCompany(p).geoScope == UsOnly <==>
      && Upper(Field(p, "country")) == "US"
      && forall k :: 0 <= k < |GlobalWords| ==> !Mentions(Lower(Field(p, "description")), GlobalWords[k])
    ensures ClassifyCompany(p).geoScope != UsOnly ==> ClassifyCompany(p).geoScope == MultiCountry
  {
    GeoScopeIff(Upper(Field(p, "country")), Lower(Field(p, "description")));
  }

  /** Only the case-folded fields matter: profiles that agree after folding classify alike. */
  lemma CaseInsensitive(p: Profile, q: Profile)
    requires forall k :: k in ["industry", "sector", "description"] ==> Lower(Field(p, k)) == Lower(Field(q, k))
    requires Upper(Field(p, "country")) == Upper(Field(q, "country"))
    ensures ClassifyCompany(p) == ClassifyCompany(q)
  {
    assert Lower(Field(p, "industry")) == Lower(Field(q, "industry"));
    assert Lower(Field(p, "sector")) == Lower(Field(q, "sector"));
    assert Lower(Field(p, "description")) == Lower(Field(q, "description"));
  }

  /** A profile with no fields is a multi-country Consumer & Industrial Products company. */
  lemma EmptyProfile()
    ensures ClassifyCompany(map[]) == Classification(ConsumerIndustrial, MultiCountry)
  {
  }

  /** A sector mentioning both "tech" and "financial" is TMT: TMT is tested first. */
  lemma TechBeforeFinancial()
    ensures IndustryGroup("tech financial", "") == Tmt
  {
  }

  /** A US technology company with a plain description is TMT and US-only. */
  lemma UsTechnologyCompany(p: Profile)
    requires p == map["sector" := "Technology", "industry" := "",
                      "description" := "We build cool products.", "country" := "US"]
    ensures ClassifyCompany(p) == Classification(Tmt, UsOnly)
  {
    UsTechnologyFields(p, "we build cool products.");
  }

  lemma UsTechnologyFields(p: Profile, l: string)
    requires Field(p, "sector") == "Technology" && Field(p, "industry") == ""
    requires Field(p, "description") == "We build cool products." && Field(p, "country") == "US"
    requires l == "we build cool products."
    ensures ClassifyCompany(p) == Classification(Tmt, UsOnly)
  {
    TechnologySector(Field(p, "sector"));
    PlainDescription(Field(p, "description"), l);
  }

  lemma TechnologySector(s: string)
    requires s == "Technology"
    ensures IndustryGroup(Lower(s), "") == Tmt
  {
    LowerIs(s, "technology");
  }

  lemma PlainDescription(d: string, l: string)
    requires d == "We build cool products." && l == "we build cool products."
    ensures GeoScope("US", Lower(d)) == UsOnly
  {
    LowerIs(d, l);
    PlainDescriptionLetters(l);
    NoGlobalWords(l);
  }

  lemma PlainDescriptionLetters(l: string)
    requires l == "we build cool products."
    ensures 'g' !in l && 'n' !in l
    ensures forall i :: 0 <= i < |l| - 1 ==> !(l[i] == 'w' && l[i + 1] == 'o')
  {
  }

  /** A US company whose description lacks the letters 'g' and 'n' and the pair "wo" is US-only. */
  lemma NoGlobalWords(l: string)
    requires 'g' !in l && 'n' !in l
    requires forall i :: 0 <= i < |l| - 1 ==> !(l[i] == 'w' && l[i + 1] == 'o')
    ensures GeoScope("US", l) == UsOnly
  {
    MissingCharNotContained(l, "global", 0);
    MissingCharNotContained(l, "international", 1);
    MissingPairNotContained(l, "worldwide", 0);
  }

  /** A US retailer describing itself as domestic is US-only. */
  lemma DomesticRetailer(p: Profile)
    requires p == map["sector" := "Retail", "industry" := "",
                      "description" := "Leading provider " + "of domestic retail solutions.",
                      "country" := "US"]
    ensures ClassifyCompany(p).geoScope == UsOnly
  {
    DomesticDescription(Field(p, "description"), "leading provider ", "of domestic retail solutions.");
  }

  lemma DomesticDescription(d: string, l1: string, l2: string)
    requires d == "Leading provider " + "of domestic retail solutions."
    requires l1 == "leading provider " && l2 == "of domestic retail solutions."
    ensures GeoScope("US", Lower(d)) == UsOnly
  {
    LowerIs(d, l1 + l2);
    DomesticDescriptionLetters(l1, l2);
    NoGlobalWordsDomestic(l1 + l2);
  }

  lemma DomesticDescriptionLetters(l1: string, l2: string)
    requires l1 == "leading provider " && l2 == "of domestic retail solutions."
    ensures 'b' !in l1 + l2 && 'w' !in l1 + l2
    ensures forall i :: 0 <= i < |l1 + l2| - 1 ==> !((l1 + l2)[i] == 'r' && (l1 + l2)[i + 1] == 'n')
  {
    assert forall i :: 0 <= i < |l1| - 1 ==> !(l1[i] == 'r' && l1[i + 1] == 'n');
    assert forall i :: 0 <= i < |l2| - 1 ==> !(l2[i] == 'r' && l2[i + 1] == 'n');
  }

  /** A US company whose description lacks the letters 'b' and 'w' and the pair "rn" is US-only. */
  lemma NoGlobalWordsDomestic(l: string)
    requires 'b' !in l && 'w' !in l
    requires forall i :: 0 <= i < |l| - 1 ==> !(l[i] == 'r' && l[i + 1] == 'n')
    ensures GeoScope("US", l) == UsOnly
  {
    MissingCharNotContained(l, "global", 3);
    MissingPairNotContained(l, "international", 4);
    MissingCharNotContained(l, "worldwide", 0);
  }

  /** A US retailer with global and international operations is multi-country. */
  lemma GlobalRetailer(p: Profile)
    requires p == map["sector" := "Retail", "industry" := "",
                      "description" := "Global provider of retail " + "solutions with international operations.",
                      "country" := "US"]
    ensures ClassifyCompany(p).geoScope == MultiCountry
  {
    GlobalDescription(Field(p, "description"));
  }

  lemma GlobalDescription(d: string)
    requires d == "Global provider of retail " + "solutions with international operations."
    ensures GeoScope("US", Lower(d)) == MultiCountry
  {
    GlobalPrefix(d);
  }

  lemma GlobalPrefix(d: string)
    requires |d| >= 6 && d[0] == 'G' && d[1] == 'l' && d[2] == 'o' && d[3] == 'b' && d[4] == 'a' && d[5] == 'l'
    ensures "global" <= Lower(d)
  {
    LowerSpec(d);
  }
}
