/** The prompt catalog of lib/prompts.ts: a fixed table, a filter by category, a join and a room lookup. */
module Prompts {
  import opened Common

  datatype Category = Staging | Lighting | Declutter | Exterior | Repair

  /**
   * One constructor per row of `realEstatePrompts`, in table order. A row is
   * identified by its constructor; its `id`, `label`, `prompt` and `category`
   * fields are the functions Id, Label, Text and CategoryOf below.
   */
  datatype PromptKey =
    | ScandinavianDesign
    | ModernNorwegian
    | CozyInterior
    | MinimalistNordic
    | NaturalNordicLight
    | WarmLighting
    | BrightDaylight
    | ScandinavianMinimalism
    | CleanSurfaces
    | OrganizedSpace
    | NorwegianGarden
    | NordicFacade
    | EntranceAppeal
    | WallRefresh
    | ModernUpgrade
    | SurfaceRenewal

  /** The `id` column. */
  function Id(k: PromptKey): string {
    match k
    case ScandinavianDesign => "scandinavian-design"
    case ModernNorwegian => "modern-norwegian"
    case CozyInterior => "cozy-interior"
    case MinimalistNordic => "minimalist-nordic"
    case NaturalNordicLight => "natural-nordic-light"
    case WarmLighting => "warm-lighting"
    case BrightDaylight => "bright-daylight"
    case ScandinavianMinimalism => "scandinavian-minimalism"
    case CleanSurfaces => "clean-surfaces"
    case OrganizedSpace => "organized-space"
    case NorwegianGarden => "norwegian-garden"
    case NordicFacade => "nordic-facade"
    case EntranceAppeal => "entrance-appeal"
    case WallRefresh => "wall-refresh"
    case ModernUpgrade => "modern-upgrade"
    case SurfaceRenewal => "surface-renewal"
  }

  /** The `label` column. */
  function Label(k: PromptKey): string {
    match k
    case ScandinavianDesign => "Skandinavisk design"
    case ModernNorwegian => "Moderne norsk"
    case CozyInterior => "Koselig interiør"
    case MinimalistNordic => "Minimalistisk nordisk"
    case NaturalNordicLight => "Naturlig nordisk lys"
    case WarmLighting => "Varm belysning"
    case BrightDaylight => "Klart dagslys"
    case ScandinavianMinimalism => "Skandinavisk minimalisme"
    case CleanSurfaces => "Rene flater"
    case OrganizedSpace => "Organisert rom"
    case NorwegianGarden => "Norsk hage"
    case NordicFacade => "Nordisk fasade"
    case EntranceAppeal => "Innbydende inngang"
    case WallRefresh => "Oppfrisk vegger"
    case ModernUpgrade => "Moderne oppgradering"
    case SurfaceRenewal => "Forny overflater"
  }

  /** The `prompt` column. */
  function Text(k: PromptKey): string {
    match k
    case ScandinavianDesign => "Møbler rommet med skandinavisk design - lyse trefarger, minimalistisk stil, funksjonelle møbler, naturlige materialer. Ikke plasser møbler foran dører eller vinduer. Bruk hvite og beige farger med enkle, rene linjer"
    case ModernNorwegian => "Legg til moderne norske møbler med lyse farger, rene linjer og naturlige tekstiler. Inkluder designklassikere og funksjonelle løsninger som passer norske hjem"
    case CozyInterior => "Skap et koselig interiør med myke tekstiler, ulltepper, puter og komfortable møbler. Legg til stearinlys og varme elementer for hygge-stemning"
    case MinimalistNordic => "Innred med minimalistisk nordisk stil - få, men velvalgte møbler, mye luft og rom, naturlige materialer som tre og lin"
    case NaturalNordicLight => "Forbedre med naturlig, nordisk lys - lyst og luftig atmosfære, myke skygger, behagelig dagslys som fremhever rommets beste sider"
    case WarmLighting => "Legg til varm, innbydende belysning som passer norske hjem. Skap en koselig atmosfære med godt balansert lys"
    case BrightDaylight => "Optimaliser dagslys for å vise rommets beste sider, fjern mørke hjørner, skap en frisk og innbydende atmosfære"
    case ScandinavianMinimalism => "Fjern unødvendige gjenstander, skap ren skandinavisk minimalisme med fokus på rom, lys og enkelhet"
    case CleanSurfaces => "Rydd alle overflater, fjern personlige eiendeler og rot, la rommets arkitektur og linjer komme frem"
    case OrganizedSpace => "Organiser rommet pent og ryddig, skap balanse og harmoni, behold kun essensielle elementer"
    case NorwegianGarden => "Forbedre hagen med norske planter, velstelt plen, naturstein og elementer som passer det norske klimaet"
    case NordicFacade => "Oppfrisk fasaden med rene linjer og moderne norsk stil, fjern skitt og slitasje, fremhev arkitektoniske detaljer"
    case EntranceAppeal => "Gjør inngangspartiet innbydende og velstelt med pent arrangerte planter, ren dørmatte og god belysning"
    case WallRefresh => "Reparer vegger, fjern skader og sprekker, mal i lyse, moderne farger som hvit, lys grå eller varm beige"
    case ModernUpgrade => "Oppgrader utdaterte elementer til moderne skandinavisk standard, bytt gamle armaturer og håndtak"
    case SurfaceRenewal => "Forny overflater med friske, lyse farger typisk for nordisk design, fjern slitasje og merker"
  }

  /** The `category` column. */
  function CategoryOf(k: PromptKey): Category {
    match k
    case ScandinavianDesign => Staging
    case ModernNorwegian => Staging
    case CozyInterior => Staging
    case MinimalistNordic => Staging
    case NaturalNordicLight => Lighting
    case WarmLighting => Lighting
    case BrightDaylight => Lighting
    case ScandinavianMinimalism => Declutter
    case CleanSurfaces => Declutter
    case OrganizedSpace => Declutter
    case NorwegianGarden => Exterior
    case NordicFacade => Exterior
    case EntranceAppeal => Exterior
    case WallRefresh => Repair
    case ModernUpgrade => Repair
    case SurfaceRenewal => Repair
  }

  // The table, in the five commented groups the source lists it in.
  const StagingKeys: seq<PromptKey> := [ScandinavianDesign, ModernNorwegian, CozyInterior, MinimalistNordic]
  const LightingKeys: seq<PromptKey> := [NaturalNordicLight, WarmLighting, BrightDaylight]
  const DeclutterKeys: seq<PromptKey> := [ScandinavianMinimalism, CleanSurfaces, OrganizedSpace]
  const ExteriorKeys: seq<PromptKey> := [NorwegianGarden, NordicFacade, EntranceAppeal]
  const RepairKeys: seq<PromptKey> := [WallRefresh, ModernUpgrade, SurfaceRenewal]

  /** `realEstatePrompts`. */
  const Catalog: seq<PromptKey> := StagingKeys + LightingKeys + DeclutterKeys + ExteriorKeys + RepairKeys

  /** The entries of any table in the given category, in table order. */
  function FilterByCategory(s: seq<PromptKey>, c: Category): (r: seq<PromptKey>)
    ensures |r| <= |s|
  {
    if |s| == 0 then []
    else if CategoryOf(s[0]) == c then [s[0]] + FilterByCategory(s[1..], c)
    else FilterByCategory(s[1..], c)
  }

  /** The catalog's entries of one category, in catalog order; every entry of that category is listed. */
  function GetPromptsByCategory(c: Category): (r: seq<PromptKey>)
    ensures forall k :: k in r <==> CategoryOf(k) == c
  {
    FilterByCategoryMembers(Catalog, c);
    forall k: PromptKey ensures k in Catalog {
      InCatalog(k);
    }
    FilterByCategory(Catalog, c)
  }

  /** Every entry of the table is in the catalog. */
  lemma InCatalog(k: PromptKey)
    ensures k in Catalog
  {
    assert Catalog[0] == ScandinavianDesign;
  }

  /** The five category lists, one after the other. */
  function AllCategoryLists(s: seq<PromptKey>): seq<PromptKey> {
    FilterByCategory(s, Staging) + FilterByCategory(s, Lighting) + FilterByCategory(s, Declutter)
      + FilterByCategory(s, Exterior) + FilterByCategory(s, Repair)
  }

  /** The filter keeps exactly the rows of category c. */
  lemma {:induction false} FilterByCategoryMembers(s: seq<PromptKey>, c: Category)
    ensures forall k :: k in FilterByCategory(s, c) <==> k in s && CategoryOf(k) == c
  {
    if |s| > 0 {
      FilterByCategoryMembers(s[1..], c);
      assert s == [s[0]] + s[1..];
    }
  }

  /**
   * Every row of any table lands in exactly one category list: the five lists
   * together are a permutation of the table.
   */
  lemma {:induction false} CategoryListsPermuteTable(s: seq<PromptKey>)
    ensures multiset(AllCategoryLists(s)) == multiset(s)
  {
    if |s| > 0 {
      var x, t := s[0], s[1..];
      CategoryListsPermuteTable(t);
      assert s == [x] + t;
      CategoryListsOfCons(x, t);
    }
  }

  /** Adding one row in front adds it to its own category list only. */
  lemma CategoryListsOfCons(x: PromptKey, t: seq<PromptKey>)
    ensures multiset(AllCategoryLists([x] + t)) == multiset(AllCategoryLists(t)) + multiset{x}
  {
    var s := [x] + t;
    FilterCons(x, t, Staging);
    FilterCons(x, t, Lighting);
    FilterCons(x, t, Declutter);
    FilterCons(x, t, Exterior);
    FilterCons(x, t, Repair);
    SumOfLists(s);
    SumOfLists(t);
    AddToOne(multiset(FilterByCategory(t, Staging)), multiset(FilterByCategory(t, Lighting)),
      multiset(FilterByCategory(t, Declutter)), multiset(FilterByCategory(t, Exterior)),
      multiset(FilterByCategory(t, Repair)), x, CategoryOf(x));
  }

  function Only(x: PromptKey, k: Category, c: Category): multiset<PromptKey> {
    if k == c then multiset{x} else multiset{}
  }

  lemma FilterCons(x: PromptKey, t: seq<PromptKey>, c: Category)
    ensures multiset(FilterByCategory([x] + t, c)) == multiset(FilterByCategory(t, c)) + Only(x, CategoryOf(x), c)
  {
    assert ([x] + t)[1..] == t;
  }

  lemma SumOfLists(s: seq<PromptKey>)
    ensures multiset(AllCategoryLists(s)) ==
      multiset(FilterByCategory(s, Staging)) + multiset(FilterByCategory(s, Lighting))
      + multiset(FilterByCategory(s, Declutter)) + multiset(FilterByCategory(s, Exterior))
      + multiset(FilterByCategory(s, Repair))
  {
  }

  lemma AddToOne(a: multiset<PromptKey>, b: multiset<PromptKey>, c: multiset<PromptKey>,
                 d: multiset<PromptKey>, e: multiset<PromptKey>, x: PromptKey, k: Category)
    ensures (a + Only(x, k, Staging)) + (b + Only(x, k, Lighting)) + (c + Only(x, k, Declutter))
      + (d + Only(x, k, Exterior)) + (e + Only(x, k, Repair)) == a + b + c + d + e + multiset{x}
  {
  }

  /** The five category lists together are a permutation of the catalog. */
  lemma CategoryListsPermuteCatalog()
    ensures multiset(GetPromptsByCategory(Staging) + GetPromptsByCategory(Lighting)
          + GetPromptsByCategory(Declutter) + GetPromptsByCategory(Exterior)
          + GetPromptsByCategory(Repair)) == multiset(Catalog)
  {
    CategoryListsPermuteTable(Catalog);
  }

  lemma {:induction false} FilterAppend(a: seq<PromptKey>, b: seq<PromptKey>, c: Category)
    ensures FilterByCategory(a + b, c) == FilterByCategory(a, c) + FilterByCategory(b, c)
  {
    if |a| > 0 {
      assert (a + b)[1..] == a[1..] + b;
      FilterAppend(a[1..], b, c);
    } else {
      assert a + b == b;
    }
  }

  /** A table whose rows all have category c filters to itself under c and to nothing under any other category. */
  lemma {:induction false} FilterUniform(s: seq<PromptKey>, c: Category, d: Category)
    requires forall i :: 0 <= i < |s| ==> CategoryOf(s[i]) == c
    ensures FilterByCategory(s, d) == if c == d then s else []
  {
    if |s| > 0 {
      FilterUniform(s[1..], c, d);
    }
  }

  /**
   * Filtering five uniform groups laid end to end gives back the group of the
   * category asked for.
   */
  lemma FilterOfGroups(st: seq<PromptKey>, li: seq<PromptKey>, de: seq<PromptKey>, ex: seq<PromptKey>,
                       re: seq<PromptKey>, c: Category)
    requires forall i :: 0 <= i < |st| ==> CategoryOf(st[i]) == Staging
    requires forall i :: 0 <= i < |li| ==> CategoryOf(li[i]) == Lighting
    requires forall i :: 0 <= i < |de| ==> CategoryOf(de[i]) == Declutter
    requires forall i :: 0 <= i < |ex| ==> CategoryOf(ex[i]) == Exterior
    requires forall i :: 0 <= i < |re| ==> CategoryOf(re[i]) == Repair
    ensures FilterByCategory(st + li + de + ex + re, c) ==
      match c
      case Staging => st
      case Lighting => li
      case Declutter => de
      case Exterior => ex
      case Repair => re
  {
    FilterAppend(st + li + de + ex, re, c);
    FilterAppend(st + li + de, ex, c);
    FilterAppend(st + li, de, c);
    FilterAppend(st, li, c);
    FilterUniform(st, Staging, c);
    FilterUniform(li, Lighting, c);
    FilterUniform(de, Declutter, c);
    FilterUniform(ex, Exterior, c);
    FilterUniform(re, Repair, c);
  }

  /** The catalog's rows of one category are exactly that category's group, in table order. */
  lemma CatalogFilterIsGroup(c: Category)
    ensures FilterByCategory(Catalog, c) == GroupOf(c)
  {
    FilterOfGroups(StagingKeys, LightingKeys, DeclutterKeys, ExteriorKeys, RepairKeys, c);
  }

  /** The group of the table that holds the rows of one category. */
  function GroupOf(c: Category): seq<PromptKey> {
    match c
    case Staging => StagingKeys
    case Lighting => LightingKeys
    case Declutter => DeclutterKeys
    case Exterior => ExteriorKeys
    case Repair => RepairKeys
  }

  /** `getPromptsByCategory('staging')` is the four staging rows, in table order. */
  lemma StagingList()
    ensures GetPromptsByCategory(Staging) == StagingKeys
  {
    CatalogFilterIsGroup(Staging);
  }

  /** `getPromptsByCategory('lighting')` is the three lighting rows, in table order. */
  lemma LightingList()
    ensures GetPromptsByCategory(Lighting) == LightingKeys
  {
    CatalogFilterIsGroup(Lighting);
  }

  /** `getPromptsByCategory('declutter')` is the three declutter rows, in table order. */
  lemma DeclutterList()
    ensures GetPromptsByCategory(Declutter) == DeclutterKeys
  {
    CatalogFilterIsGroup(Declutter);
  }

  /** `getPromptsByCategory('exterior')` is the three exterior rows, in table order. */
  lemma ExteriorList()
    ensures GetPromptsByCategory(Exterior) == ExteriorKeys
  {
    CatalogFilterIsGroup(Exterior);
  }

  /** `getPromptsByCategory('repair')` is the three repair rows, in table order. */
  lemma RepairList()
    ensures GetPromptsByCategory(Repair) == RepairKeys
  {
    CatalogFilterIsGroup(Repair);
  }

  /** The catalog has 16 rows: staging 4, lighting 3, declutter 3, exterior 3, repair 3. */
  lemma CatalogSizes()
    ensures |Catalog| == 16
    ensures |GetPromptsByCategory(Staging)| == 4
    ensures |GetPromptsByCategory(Lighting)| == 3
    ensures |GetPromptsByCategory(Declutter)| == 3
    ensures |GetPromptsByCategory(Exterior)| == 3
    ensures |GetPromptsByCategory(Repair)| == 3
  {
    StagingList();
    LightingList();
    DeclutterList();
    ExteriorList();
    RepairList();
  }

  /** Different rows have different ids. */
  lemma IdInjective(k1: PromptKey, k2: PromptKey)
    ensures Id(k1) == Id(k2) <==> k1 == k2
  {
  }

  /** The catalog lists each row once, so the ids of its rows are pairwise distinct. */
  lemma CatalogIdsDistinct()
    ensures forall i, j :: 0 <= i < j < |Catalog| ==> Id(Catalog[i]) != Id(Catalog[j])
  {
    forall i, j | 0 <= i < j < |Catalog|
      ensures Id(Catalog[i]) != Id(Catalog[j])
    {
      assert Catalog[i] != Catalog[j];
      IdInjective(Catalog[i], Catalog[j]);
    }
  }


  // ---------------------------------------------------------------------------
  // combinePrompts

  /** The non-empty prompts joined with ". "; empty exactly when every argument is empty. */
  function CombinePrompts(ps: seq<string>): (r: string)
    ensures r == "" <==> forall i :: 0 <= i < |ps| ==> ps[i] == ""
  {
    NonEmptyIsEmptyIff(ps);
    JoinOfNonEmptyIsEmptyIff(NonEmpty(ps), ". ");
    Join(NonEmpty(ps), ". ")
  }

  lemma {:induction false} NonEmptyIsEmptyIff(ps: seq<string>)
    ensures NonEmpty(ps) == [] <==> forall i :: 0 <= i < |ps| ==> ps[i] == ""
  {
    if |ps| > 0 {
      NonEmptyIsEmptyIff(ps[1..]);
      assert forall i :: 1 <= i < |ps| ==> ps[i] == ps[1..][i - 1];
    }
  }

  lemma {:induction false} JoinOfNonEmptyIsEmptyIff(xs: seq<string>, sep: string)
    requires forall i :: 0 <= i < |xs| ==> xs[i] != ""
    ensures Join(xs, sep) == "" <==> xs == []
  {
    if |xs| > 1 {
      assert |Join(xs, sep)| >= |xs[0]|;
    }
  }

  /** A single non-empty prompt comes back unchanged. */
  lemma CombineSingle(p: string)
    requires p != ""
    ensures CombinePrompts([p]) == p
  {
    assert [p][1..] == [];
  }

  lemma {:induction false} NonEmptyAppend(a: seq<string>, b: seq<string>)
    ensures NonEmpty(a + b) == NonEmpty(a) + NonEmpty(b)
  {
    if |a| > 0 {
      assert (a + b)[1..] == a[1..] + b;
      NonEmptyAppend(a[1..], b);
    } else {
      assert a + b == b;
    }
  }

  lemma {:induction false} JoinAppend(xs: seq<string>, ys: seq<string>, sep: string)
    requires xs != [] && ys != []
    ensures Join(xs + ys, sep) == Join(xs, sep) + sep + Join(ys, sep)
  {
    if |xs| > 1 {
      assert (xs + ys)[1..] == xs[1..] + ys;
      JoinAppend(xs[1..], ys, sep);
    } else {
      assert (xs + ys)[1..] == ys;
    }
  }

  /**
   * Combining two argument lists one after the other is combining each and
   * joining the two results with ". ", where an empty side contributes nothing.
   */
  lemma CombineAppend(a: seq<string>, b: seq<string>)
    ensures CombinePrompts(a + b) ==
      if CombinePrompts(a) == "" then CombinePrompts(b)
      else if CombinePrompts(b) == "" then CombinePrompts(a)
      else CombinePrompts(a) + ". " + CombinePrompts(b)
  {
    NonEmptyAppend(a, b);
    JoinOfNonEmptyIsEmptyIff(NonEmpty(a), ". ");
    JoinOfNonEmptyIsEmptyIff(NonEmpty(b), ". ");
    if NonEmpty(a) == [] {
      assert NonEmpty(a + b) == NonEmpty(b);
    } else if NonEmpty(b) == [] {
      assert NonEmpty(a + b) == NonEmpty(a);
    } else {
      JoinAppend(NonEmpty(a), NonEmpty(b), ". ");
    }
  }

  // ---------------------------------------------------------------------------
  // enhancePromptForRoom

  /** The keys of the `roomEnhancements` record. */
  datatype Room = Kitchen | Bedroom | Bathroom | LivingRoom | DiningRoom | Office | Garage

  /** Looking a string up among the seven keys; exactly those seven are found. */
  function ParseRoom(roomType: string): (r: Option<Room>)
    ensures r.Some? <==> roomType in RoomTypes
  {
    if roomType == "kitchen" then Some(Kitchen)
    else if roomType == "bedroom" then Some(Bedroom)
    else if roomType == "bathroom" then Some(Bathroom)
    else if roomType == "living-room" then Some(LivingRoom)
    else if roomType == "dining-room" then Some(DiningRoom)
    else if roomType == "office" then Some(Office)
    else if roomType == "garage" then Some(Garage)
    else None
  }

  /** The values of the `roomEnhancements` record; every one of them is a non-empty string. */
  function Enhancement(room: Room): string {
    match room
    case Kitchen => "moderne hvitevarer, rene benkeplater, organiserte skap, skandinavisk kjøkkendesign"
    case Bedroom => "komfortabel seng med hvitt sengetøy, myk belysning, ryddig garderobe, rolig atmosfære"
    case Bathroom => "rene armaturer, spa-atmosfære, friske håndklær, minimalistisk design"
    case LivingRoom => "komfortable sittemøbler, naturlige materialer, god romfølelse, hyggelig atmosfære"
    case DiningRoom => "elegant borddekking, godt lys over spisebordet, romslig følelse, skandinaviske designmøbler"
    case Office => "organisert arbeidsområde, profesjonelt utseende, god belysning, minimalistisk stil"
    case Garage => "rent gulv, organisert lagring, god belysning, ryddig"
  }

  const RoomTypes: set<string> := {"kitchen", "bedroom", "bathroom", "living-room", "dining-room", "office", "garage"}

  /**
   * An empty or absent room type and a string outside the seven keys take the
   * base unchanged; a key appends its enhancement. (Every enhancement is a
   * non-empty string, so the lookup succeeds exactly for the seven keys.)
   */
  function EnhancePromptForRoom(basePrompt: string, roomType: Option<string>): (r: string)
    ensures IsPrefix(basePrompt, r)
    ensures |r| > |basePrompt| <==> roomType.Some? && roomType.value in RoomTypes
  {
    if Truthy(roomType) && ParseRoom(roomType.value).Some? then
      basePrompt + ", " + Enhancement(ParseRoom(roomType.value).value)
    else basePrompt
  }

  /**
   * The base prompt is returned unchanged for an absent, empty or unknown room
   * type; for one of the seven keys it is followed by ", " and the enhancement.
   */
  lemma EnhanceCases(basePrompt: string, roomType: Option<string>)
    ensures roomType.None? || roomType.value !in RoomTypes ==> EnhancePromptForRoom(basePrompt, roomType) == basePrompt
    ensures roomType.Some? && roomType.value in RoomTypes ==>
      EnhancePromptForRoom(basePrompt, roomType) == basePrompt + ", " + Enhancement(ParseRoom(roomType.value).value)
  {
  }
}
