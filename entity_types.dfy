/**
 * multihop_rag/chunker/entity_types.py: `find_entity_type`, a keyword
 * classifier over the constant `ENTITY_TYPES` table. Two rules come first
 * (a paragraph reference, a court-decision reference); otherwise the type
 * whose keywords occur most often in the lower-cased text wins, the earliest
 * type in table order on a tie.
 */
module EntityTypes {
  import opened Strings

  /** `ENTITY_TYPES`: each type with its keywords, in table order; the descriptions are not kept. */
  const EntityTypes: seq<(string, seq<string>)> := [
    ("lovhenvisning", ["§", "stk", "nr", "litra", "kapitel", "afsnit", "lov nr", "lovbekendtgørelse", "LBK nr", "direktiv", "forordning"]),
    ("retskilde", ["lovforarbejder", "betænkning", "cirkulære", "vejledning", "EU-ret", "bekendtgørelse", "lovgivning"]),
    ("domshenvisning", ["dom", "kendelse", "SKM", "TfS", "U.", "LSR", "Højesterets dom", "Landsrettens dom", "afgørelse"]),
    ("myndighed", ["ministerium", "styrelse", "nævn", "råd", "tilsyn", "kommune", "forvaltning", "kommission", "direktorat", "departement"]),
    ("juridisk_person", ["selskab", "fond", "forening", "organisation", "virksomhed", "A/S", "ApS", "I/S", "koncern", "datterselskab", "moderselskab"]),
    ("fysisk_person", ["borger", "part", "person", "ægtefælle", "arving", "debitor", "kreditor", "ansatte", "arbejdsgiver", "arbejdstager"]),
    ("juridisk_begreb", ["pligt", "ret", "erstatning", "aftalefrihed", "god tro", "passivitet", "hæftelse", "ansvar", "forpligtelse"]),
    ("tidsangivelse", ["frist", "periode", "ikrafttræden", "ophør", "termin", "indkomstår", "kalenderår", "regnskabsår", "dato"]),
    ("økonomisk_begreb", ["beløb", "grænse", "værdi", "rente", "afgift", "skat", "moms", "grundbeløb", "beløbsgrænse", "værdiansættelse", "kurs"]),
    ("område", ["skatteret", "selskabsret", "arveret", "obligationsret", "miljøret", "forvaltningsret", "familieret", "aftaleret", "strafferet"]),
    ("retsvirkning", ["sanktion", "bøde", "straf", "tilladelse", "forbud", "godkendelse", "konsekvens", "virkning", "hjemmel", "gyldighed"]),
    ("processuelt_begreb", ["klage", "anke", "sag", "bevis", "forlig", "påstand", "procedure", "sagsbehandling", "høring", "indsigelse"]),
    ("skattestatus", ["skattepligt", "fuld skattepligt", "begrænset skattepligt", "skattefritagelse", "skattepligtig", "skattefri"]),
    ("indkomsttype", ["personlig indkomst", "kapitalindkomst", "aktieindkomst", "erhvervsindkomst", "CFC-indkomst", "lønindkomst", "udbytte"]),
    ("fradragstype", ["ligningsmæssige fradrag", "driftsomkostninger", "tab", "afskrivninger", "fradragsberettiget", "fradragsret"]),
    ("skatteberegningselement", ["skattegrundlag", "bundskat", "topskat", "sundhedsbidrag", "personfradrag", "skattesats", "skatteloft", "skatteværdi"]),
    ("skattemyndighedsaktør", ["Skattestyrelsen", "Skatteankestyrelsen", "Landsskatteretten", "Skatterådet", "Vurderingsstyrelsen", "Gældsstyrelsen"]),
    ("forvaltningsmyndighed", ["Skatteforvaltningen", "Skatteankestyrelsen", "Landsskatteretten", "Skatterådet", "Motorankenævn", "Vurderingsankenævn"]),
    ("kompetencefordeling", ["saglig kompetence", "territorial kompetence", "delegation", "bemyndigelse", "ressortområde", "kompetent myndighed"]),
    ("sagsbehandlingsskridt", ["partshøring", "vejledning", "afgørelse", "sagsoplysning", "begrundelse", "journalisering", "underretning"]),
    ("klagemulighed", ["klage", "anke", "genoptagelse", "revision", "omgørelse", "påklage", "rekurs", "administrativ rekurs"]),
    ("fristrelateret", ["klagefrist", "forældelsesfrist", "ansættelsesfrist", "genoptagelsesfrist", "reaktionsfrist", "fristberegning"]),
    ("kontrolaktivitet", ["kontrol", "eftersyn", "indhentelse af oplysninger", "kontrolbesøg", "ransagning", "edition", "oplysningspligt", "undersøgelse"]),
    ("retssikkerhedselement", ["begrundelsespligt", "aktindsigt", "partsrepræsentation", "officialprincip", "legalitetsprincip", "partshøring"]),
    ("sanktion", ["bøde", "tillægsskat", "strafsanktion", "tvangsbøde", "straf", "skattetillæg", "administrative sanktioner"]),
    ("afgiftstype", ["registreringsafgift", "punktafgift", "miljøafgift", "energiafgift", "vægtafgift", "importafgift", "forbrugsafgift"]),
    ("digital_forvaltning", ["digital post", "e-Boks", "sikker digital kommunikation", "digital signatur", "TastSelv", "NemID", "MitID"]),
    ("international_skattesamarbejde", ["udveksling af oplysninger", "dobbeltbeskatningsoverenskomst", "bistandsaftale", "international sambeskatning", "transferpricing"]),
    ("skattesubjekt", ["skattepligtig", "afgiftspligtig", "tredjemand", "indberetningspligtig", "skatteyder", "skattesubjekt", "selvanmelder"])
  ]

  const Unknown: string := "ukendt"

  /** The citation prefixes of court decisions, matched case-sensitively. */
  const CasePrefixes: seq<string> := ["SKM", "TfS", "U.", "LSR"]

  /** `any(c.isdigit() for c in text)`. */
  predicate HasDigit(s: string)
  {
    exists i :: 0 <= i < |s| && IsDigit(s[i])
  }

  /** Keyword `k`, lower-cased, occurs in `textLower`. */
  predicate Hit(textLower: string, k: string)
  {
    Contains(textLower, Lower(k))
  }

  /** How many of `keywords`, lower-cased, occur in `textLower`. */
  function Hits(keywords: seq<string>, textLower: string): (n: nat)
    ensures n <= |keywords|
  {
    if keywords == [] then 0
    else Hits(keywords[..|keywords| - 1], textLower) + if Hit(textLower, keywords[|keywords| - 1]) then 1 else 0
  }

  /** No hits exactly when no keyword occurs. */
  lemma {:induction false} NoHits(keywords: seq<string>, textLower: string)
    ensures Hits(keywords, textLower) == 0 <==> forall k :: k in keywords ==> !Hit(textLower, k)
    decreases |keywords|
  {
    if keywords != [] {
      var init := keywords[..|keywords| - 1];
      NoHits(init, textLower);
      assert forall k :: k in keywords ==> k in init || k == keywords[|keywords| - 1];
    }
  }

  /**
   * The argmax loop over `types`: the type found so far and its count, where
   * a later type replaces it only with strictly more hits.
   */
  function Best(types: seq<(string, seq<string>)>, textLower: string): (Option<string>, nat)
  {
    if types == [] then (None, 0)
    else
      var (best, most) := Best(types[..|types| - 1], textLower);
      var n := Hits(types[|types| - 1].1, textLower);
      if n > most then (Some(types[|types| - 1].0), n) else (best, most)
  }

  /** Type `i` has the most hits of all, and every earlier type strictly fewer. */
  ghost predicate FirstMaximum(types: seq<(string, seq<string>)>, textLower: string, i: nat)
    requires i < |types|
  {
    (forall j :: 0 <= j < |types| ==> Hits(types[j].1, textLower) <= Hits(types[i].1, textLower)) &&
    (forall j :: 0 <= j < i ==> Hits(types[j].1, textLower) < Hits(types[i].1, textLower))
  }

  /**
   * The loop finds the maximum count and, when it is positive, the first
   * type reaching it; with a count of 0 no type is found.
   */
  lemma {:induction false} BestIsFirstMaximum(types: seq<(string, seq<string>)>, textLower: string)
    ensures forall i :: 0 <= i < |types| ==> Hits(types[i].1, textLower) <= Best(types, textLower).1
    ensures Best(types, textLower).1 == 0 <==> Best(types, textLower).0.None?
    ensures Best(types, textLower).1 > 0 ==> exists i :: (0 <= i < |types| && FirstMaximum(types, textLower, i) &&
      Best(types, textLower) == (Some(types[i].0), Hits(types[i].1, textLower)))
    decreases |types|
  {
    if types != [] {
      var init := types[..|types| - 1];
      var last := types[|types| - 1];
      BestIsFirstMaximum(init, textLower);
      var (best, most) := Best(init, textLower);
      var n := Hits(last.1, textLower);
      forall j | 0 <= j < |init|
        ensures Hits(types[j].1, textLower) <= most
      {
        assert types[j] == init[j];
      }
      if n > most {
        assert FirstMaximum(types, textLower, |types| - 1);
      } else if most > 0 {
        var i :| 0 <= i < |init| && FirstMaximum(init, textLower, i) && (best, most) == (Some(init[i].0), Hits(init[i].1, textLower));
        forall j | 0 <= j < i
          ensures Hits(types[j].1, textLower) < most
        {
          assert types[j] == init[j];
        }
        assert types[i] == init[i];
        assert FirstMaximum(types, textLower, i);
      }
    }
  }

  /** The court-decision rule: a citation prefix and a digit somewhere in the text. */
  predicate CitesDecision(s: string)
  {
    (exists k :: 0 <= k < |CasePrefixes| && Contains(s, CasePrefixes[k])) && HasDigit(s)
  }

  /**
   * What `find_entity_type` returns over the type table `table`; `None`
   * stands for any value that is not a string.
   */
  function EntityTypeIn(table: seq<(string, seq<string>)>, text: Option<string>): string
  {
    if text.None? || text.value == [] then Unknown
    else
      var s := text.value;
      if s[0] == '§' || ('§' in s && HasDigit(s)) then "lovhenvisning"
      else if CitesDecision(s) then "domshenvisning"
      else
        var (best, most) := Best(table, Lower(s));
        if best.Some? && best.value != [] && most > 0 then best.value else Unknown
  }

  /** The result is "ukendt", one of the two reference types, or a type of the table. */
  lemma ResultIsKnown(table: seq<(string, seq<string>)>, text: Option<string>)
    ensures var r := EntityTypeIn(table, text);
      r in {Unknown, "lovhenvisning", "domshenvisning"} || exists i :: 0 <= i < |table| && table[i].0 == r
  {
    if text.Some? && text.value != [] {
      BestIsFirstMaximum(table, Lower(text.value));
    }
  }

  /** Every type of a table: named, and not named "ukendt". */
  predicate Named(table: seq<(string, seq<string>)>)
  {
    forall i :: 0 <= i < |table| ==> table[i].0 != [] && table[i].0 != Unknown
  }

  lemma EntityTypesNamed()
    ensures Named(EntityTypes)
  {
  }

  /**
   * Without a reference in the text, the keywords decide: "ukendt" exactly
   * when no keyword of any type occurs, else the first type with the most
   * hits.
   */
  lemma KeywordsDecide(table: seq<(string, seq<string>)>, s: string)
    requires Named(table)
    requires s != [] && s[0] != '§' && !('§' in s && HasDigit(s)) && !CitesDecision(s)
    ensures EntityTypeIn(table, Some(s)) == Unknown <==>
      forall i, k :: 0 <= i < |table| && k in table[i].1 ==> !Hit(Lower(s), k)
    ensures EntityTypeIn(table, Some(s)) != Unknown ==>
      exists i :: 0 <= i < |table| && FirstMaximum(table, Lower(s), i) && table[i].0 == EntityTypeIn(table, Some(s))
  {
    BestIsFirstMaximum(table, Lower(s));
    forall i | 0 <= i < |table| {
      NoHits(table[i].1, Lower(s));
    }
  }

  /** `find_entity_type` over a type table. */
  method FindEntityTypeIn(table: seq<(string, seq<string>)>, text: Option<string>) returns (entityType: string)
    ensures entityType == EntityTypeIn(table, text)
  {
    if text.None? || text.value == [] {
      return Unknown;
    }
    var s := text.value;
    var textLower := Lower(s);
    if s[0] == '§' || ('§' in s && HasDigit(s)) {
      return "lovhenvisning";
    }
    for k := 0 to |CasePrefixes|
      invariant forall m :: 0 <= m < k ==> !(Contains(s, CasePrefixes[m]) && HasDigit(s))
    {
      if Contains(s, CasePrefixes[k]) && HasDigit(s) {
        return "domshenvisning";
      }
    }
    var bestMatch: Option<string> := None;
    var maxMatches := 0;
    for i := 0 to |table|
      invariant (bestMatch, maxMatches) == Best(table[..i], textLower)
    {
      assert table[..i + 1][..i] == table[..i];
      var (name, keywords) := table[i];
      var matches := 0;
      for j := 0 to |keywords|
        invariant matches == Hits(keywords[..j], textLower)
      {
        assert keywords[..j + 1][..j] == keywords[..j];
        if Contains(textLower, Lower(keywords[j])) {
          matches := matches + 1;
        }
      }
      assert keywords[..|keywords|] == keywords;
      if matches > maxMatches {
        maxMatches := matches;
        bestMatch := Some(name);
      }
    }
    assert table[..|table|] == table;
    entityType := if bestMatch.Some? && bestMatch.value != [] && maxMatches > 0 then bestMatch.value else Unknown;
  }

  /** `find_entity_type` over `ENTITY_TYPES`. */
  method FindEntityType(text: Option<string>) returns (entityType: string)
    ensures entityType == EntityTypeIn(EntityTypes, text)
  {
    entityType := FindEntityTypeIn(EntityTypes, text);
  }
}
