/** The static catalog of AI platforms the renderer offers
    (src/renderer/src/data/aiPlatforms.ts) and its two lookups. The catalog
    is an immutable sequence; both lookups are pure and leave it as it is. */
module Platforms {
  import opened Wrappers

  /** The category union of the `AIPlatform` record. */
  datatype Category = Chat | Coding | Creative | Research

  /** The string literal each category is written as. */
  function CategoryName(c: Category): string {
    match c
    case Chat => "chat"
    case Coding => "coding"
    case Creative => "creative"
    case Research => "research"
  }

  datatype Platform = Platform(
    id: string,
    name: string,
    url: string,
    description: string,
    icon: string,
    color: string,
    category: Category)

  const Catalog: seq<Platform> := [
    Platform("chatgpt", "ChatGPT", "https://chat.openai.com",
      "OpenAI's conversational AI assistant", "", "bg-green-500", Chat),
    Platform("claude", "Claude", "https://claude.ai",
      "Anthropic's AI assistant for complex tasks", "", "bg-orange-500", Chat),
    Platform("gemini", "Gemini", "https://gemini.google.com",
      "Google's multimodal AI model", "", "bg-blue-500", Chat),
    Platform("deepseek", "DeepSeek", "https://chat.deepseek.com",
      "Advanced AI for coding and reasoning", "", "bg-purple-500", Coding),
    Platform("copilot", "GitHub Copilot", "https://github.com/features/copilot",
      "AI pair programmer for code generation", "", "bg-gray-500", Coding),
    Platform("perplexity", "Perplexity", "https://www.perplexity.ai",
      "AI-powered search and research tool", "", "bg-indigo-500", Research),
    Platform("grok", "Grok", "https://x.ai",
      "X's AI assistant with real-time knowledge", "", "bg-red-500", Chat),
    Platform("pi", "Pi", "https://pi.ai",
      "Inflection's personal AI assistant", "", "bg-cyan-500", Chat)
  ]

  /** `a` is obtained from `b` by deleting elements, order kept. */
  ghost predicate IsSubsequence<T>(a: seq<T>, b: seq<T>)
    decreases |b|
  {
    if |a| == 0 then true
    else if |b| == 0 then false
    else (a[0] == b[0] && IsSubsequence(a[1..], b[1..])) || IsSubsequence(a, b[1..])
  }

  predicate DistinctIds(ps: seq<Platform>) {
    forall i, j | 0 <= i < j < |ps| :: ps[i].id != ps[j].id
  }

  /** `Array.prototype.filter` on the category: the platforms of category
      `category`, in their original order. */
  function SelectCategory(ps: seq<Platform>, category: string): (r: seq<Platform>)
    ensures |r| <= |ps|
    ensures forall i | 0 <= i < |r| :: CategoryName(r[i].category) == category
    decreases |ps|
  {
    if |ps| == 0 then []
    else if CategoryName(ps[0].category) == category then [ps[0]] + SelectCategory(ps[1..], category)
    else SelectCategory(ps[1..], category)
  }

  /** The selection keeps the order of the list it selects from. */
  lemma {:induction false} SelectIsSubsequence(ps: seq<Platform>, category: string)
    ensures IsSubsequence(SelectCategory(ps, category), ps)
    decreases |ps|
  {
    if |ps| > 0 {
      var rest := SelectCategory(ps[1..], category);
      SelectIsSubsequence(ps[1..], category);
      if CategoryName(ps[0].category) == category {
        assert ([ps[0]] + rest)[1..] == rest;
      } else if rest != [] {
        assert rest[0] != ps[0];
      }
    }
  }

  /** The selection holds each platform of category `category` exactly as
      often as the list does, and no other platform. */
  lemma {:induction false} SelectCounts(ps: seq<Platform>, category: string)
    ensures forall p :: multiset(SelectCategory(ps, category))[p]
                     == if CategoryName(p.category) == category then multiset(ps)[p] else 0
    decreases |ps|
  {
    if |ps| > 0 {
      SelectCounts(ps[1..], category);
      assert ps == [ps[0]] + ps[1..];
    }
  }

  /** `Array.prototype.find` on the id: the first platform with id `id`, or
      none (JavaScript's `undefined`) when there is no such platform. */
  function FindById(ps: seq<Platform>, id: string): (r: Option<Platform>)
    ensures r.None? <==> forall i | 0 <= i < |ps| :: ps[i].id != id
    ensures r.Some? ==> r.value.id == id && exists i | 0 <= i < |ps| ::
      ps[i] == r.value && forall j | 0 <= j < i :: ps[j].id != id
    decreases |ps|
  {
    if |ps| == 0 then None
    else if ps[0].id == id then Some(ps[0])
    else
      var r := FindById(ps[1..], id);
      if r.Some? then
        var i :| 0 <= i < |ps[1..]| && ps[1..][i] == r.value && forall j | 0 <= j < i :: ps[1..][j].id != id;
        assert ps[i + 1] == r.value;
        assert forall j | 0 <= j < i + 1 :: ps[j].id != id by {
          forall j | 0 <= j < i + 1 ensures ps[j].id != id {
            if j > 0 { assert ps[j] == ps[1..][j - 1]; }
          }
        }
        r
      else r
  }

  lemma SelectMembership(ps: seq<Platform>, category: string)
    ensures forall p :: p in SelectCategory(ps, category) <==> p in ps && CategoryName(p.category) == category
  {
    var r := SelectCategory(ps, category);
    SelectCounts(ps, category);
    forall p ensures p in r <==> p in ps && CategoryName(p.category) == category {
      assert p in r <==> multiset(r)[p] > 0;
      assert p in ps <==> multiset(ps)[p] > 0;
    }
  }

  /** `getPlatformsByCategory(category)`. */
  function GetPlatformsByCategory(category: string): (r: seq<Platform>)
    ensures IsSubsequence(r, Catalog)
    ensures forall p :: p in r <==> p in Catalog && CategoryName(p.category) == category
  {
    SelectIsSubsequence(Catalog, category);
    SelectMembership(Catalog, category);
    SelectCategory(Catalog, category)
  }

  /** `getPlatformById(id)`. */
  function GetPlatformById(id: string): (r: Option<Platform>)
    ensures r.Some? ==> r.value in Catalog && r.value.id == id
    ensures r.None? <==> forall p | p in Catalog :: p.id != id
  {
    FindById(Catalog, id)
  }

  /** With pairwise distinct ids, the first match is the only one: `FindById`
      answers `p` exactly when `p` is in the list with that id. */
  lemma FindByIdUnique(ps: seq<Platform>, id: string, p: Platform)
    requires DistinctIds(ps)
    ensures FindById(ps, id) == Some(p) <==> p in ps && p.id == id
  {
    if p in ps && p.id == id {
      var k :| 0 <= k < |ps| && ps[k] == p;
      var r := FindById(ps, id);
      var i :| 0 <= i < |ps| && ps[i] == r.value && forall j | 0 <= j < i :: ps[j].id != id;
      assert i == k;
    }
  }

  /** The catalog has eight platforms with pairwise distinct ids. */
  lemma CatalogShape()
    ensures |Catalog| == 8
    ensures DistinctIds(Catalog)
  {
  }

  /** `getPlatformById` finds `p` exactly when `p` is the catalog's platform
      with that id. */
  lemma GetPlatformByIdExact(id: string, p: Platform)
    ensures GetPlatformById(id) == Some(p) <==> p in Catalog && p.id == id
  {
    CatalogShape();
    FindByIdUnique(Catalog, id, p);
  }

  /** Selecting by two different category names gives disjoint results. */
  lemma SelectionsDisjoint(ps: seq<Platform>, c1: string, c2: string)
    requires c1 != c2
    ensures multiset(SelectCategory(ps, c1)) * multiset(SelectCategory(ps, c2)) == multiset{}
  {
    var m := multiset(SelectCategory(ps, c1)) * multiset(SelectCategory(ps, c2));
    SelectCounts(ps, c1);
    SelectCounts(ps, c2);
    forall p ensures m[p] == 0 {
      assert multiset(SelectCategory(ps, c1))[p] == 0 || multiset(SelectCategory(ps, c2))[p] == 0;
    }
  }

  /** The four category selections together hold every platform exactly as
      often as the list does. */
  lemma SelectionsPartition(ps: seq<Platform>)
    ensures multiset(SelectCategory(ps, "chat")) + multiset(SelectCategory(ps, "coding"))
          + multiset(SelectCategory(ps, "creative")) + multiset(SelectCategory(ps, "research"))
         == multiset(ps)
  {
    var m := multiset(SelectCategory(ps, "chat")) + multiset(SelectCategory(ps, "coding"))
           + multiset(SelectCategory(ps, "creative")) + multiset(SelectCategory(ps, "research"));
    SelectCounts(ps, "chat");
    SelectCounts(ps, "coding");
    SelectCounts(ps, "creative");
    SelectCounts(ps, "research");
    forall p ensures m[p] == multiset(ps)[p] {
      match p.category
      case Chat =>
      case Coding =>
      case Creative =>
      case Research =>
    }
  }

  /** Selection distributes over concatenation. */
  lemma {:induction false} SelectAppend(a: seq<Platform>, b: seq<Platform>, category: string)
    ensures SelectCategory(a + b, category) == SelectCategory(a, category) + SelectCategory(b, category)
    decreases |a|
  {
    if |a| == 0 {
      assert a + b == b;
    } else {
      assert (a + b)[0] == a[0];
      assert (a + b)[1..] == a[1..] + b;
      SelectAppend(a[1..], b, category);
    }
  }

  /** The catalog, selected one platform at a time. */
  lemma SelectCatalogPiecewise(category: string)
    ensures SelectCategory(Catalog, category)
         == SelectCategory([Catalog[0]], category) + SelectCategory([Catalog[1]], category)
          + SelectCategory([Catalog[2]], category) + SelectCategory([Catalog[3]], category)
          + SelectCategory([Catalog[4]], category) + SelectCategory([Catalog[5]], category)
          + SelectCategory([Catalog[6]], category) + SelectCategory([Catalog[7]], category)
  {
    var c := Catalog;
    assert c == [c[0]] + [c[1]] + [c[2]] + [c[3]] + [c[4]] + [c[5]] + [c[6]] + [c[7]];
    SelectAppend([c[0]] + [c[1]] + [c[2]] + [c[3]] + [c[4]] + [c[5]] + [c[6]], [c[7]], category);
    SelectAppend([c[0]] + [c[1]] + [c[2]] + [c[3]] + [c[4]] + [c[5]], [c[6]], category);
    SelectAppend([c[0]] + [c[1]] + [c[2]] + [c[3]] + [c[4]], [c[5]], category);
    SelectAppend([c[0]] + [c[1]] + [c[2]] + [c[3]], [c[4]], category);
    SelectAppend([c[0]] + [c[1]] + [c[2]], [c[3]], category);
    SelectAppend([c[0]] + [c[1]], [c[2]], category);
    SelectAppend([c[0]], [c[1]], category);
  }

  /** Five chat, two coding and one research platform; none is creative. */
  lemma CatalogCategories()
    ensures |GetPlatformsByCategory("chat")| == 5
    ensures |GetPlatformsByCategory("coding")| == 2
    ensures |GetPlatformsByCategory("research")| == 1
    ensures GetPlatformsByCategory("creative") == []
  {
    CatalogCount("chat");
    CatalogCount("coding");
    CatalogCount("research");
    CatalogCount("creative");
  }

  /** How many catalog platforms carry the category name `category`. */
  lemma CatalogCount(category: string)
    ensures |SelectCategory(Catalog, category)|
         == if category == "chat" then 5
            else if category == "coding" then 2
            else if category == "research" then 1
            else 0
  {
    SelectCatalogPiecewise(category);
  }

  /** A string that names no category selects nothing. */
  lemma UnknownCategoryEmpty(category: string)
    requires forall c: Category :: CategoryName(c) != category
    ensures GetPlatformsByCategory(category) == []
  {
  }
}
