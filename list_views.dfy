/**
 * The read-only views: the query sets of `PromptList`, `FavouriteListCreate` (GET) and
 * `CategoryList`, and the responses built from them. Each is a query over the tables,
 * so each is a function of the table contents.
 */
module ListViews {
  import opened Wrappers
  import opened Seqs
  import opened Text
  import opened Models
  import opened Serializers

  /** `order_by('-created_at')`: ascending in this key is newest first. */
  function NewestFirst(p: Prompt): int { -p.createdAt }

  /** `order_by('order')`. */
  function CategoryOrder(c: Category): int { c.order }

  /** The join `category__slug=slug`: the prompt's category row has that slug. */
  predicate InCategoryWithSlug(categories: seq<Category>, p: Prompt, slug: string) {
    exists c :: c in categories && c.id == p.category && c.slug == slug
  }

  /** `title__icontains=search | prompt_text__icontains=search`, applied only when `search` is truthy. */
  predicate MatchesSearch(p: Prompt, search: Option<string>) {
    !Supplied(search)
    || ContainsIgnoringCase(p.title, search.value)
    || ContainsIgnoringCase(p.promptText, search.value)
  }

  /** `category__slug=category`, applied only when `category` is truthy. */
  predicate MatchesCategory(categories: seq<Category>, p: Prompt, category: Option<string>) {
    !Supplied(category) || InCategoryWithSlug(categories, p, category.value)
  }

  /** Both filters of `PromptList.get_queryset`. */
  predicate Listed(categories: seq<Category>, search: Option<string>, category: Option<string>, p: Prompt) {
    MatchesSearch(p, search) && MatchesCategory(categories, p, category)
  }

  function ListFilter(categories: seq<Category>, search: Option<string>, category: Option<string>): Prompt -> bool {
    (p: Prompt) => Listed(categories, search, category, p)
  }

  /**
   * `PromptList.get_queryset`: the prompts that match the search and the category
   * slug, newest first. Each matching row appears exactly once, no other row appears.
   */
  function PromptList(
    categories: seq<Category>, prompts: seq<Prompt>,
    search: Option<string>, category: Option<string>): (r: seq<Prompt>)
    ensures forall i, j :: 0 <= i < j < |r| ==> r[i].createdAt >= r[j].createdAt
    ensures forall p :: multiset(r)[p] == if Listed(categories, search, category, p) then multiset(prompts)[p] else 0
    ensures forall p :: p in r <==> p in prompts && Listed(categories, search, category, p)
  {
    var r := SortBy(Filter(prompts, ListFilter(categories, search, category)), NewestFirst);
    assert forall i, j :: 0 <= i < j < |r| ==> NewestFirst(r[i]) <= NewestFirst(r[j]);
    r
  }

  /** Without search and category the listing is every prompt, each once. */
  lemma PromptListUnfiltered(categories: seq<Category>, prompts: seq<Prompt>, search: Option<string>, category: Option<string>)
    requires !Supplied(search) && !Supplied(category)
    ensures multiset(PromptList(categories, prompts, search, category)) == multiset(prompts)
  {
    var r := PromptList(categories, prompts, search, category);
    forall p ensures multiset(r)[p] == multiset(prompts)[p] {
      assert Listed(categories, search, category, p);
    }
  }

  /** The search is case-insensitive: terms that lower to the same text list the same prompts. */
  lemma PromptListSearchIgnoresCase(
    categories: seq<Category>, prompts: seq<Prompt>, s1: string, s2: string, category: Option<string>)
    requires Lower(s1) == Lower(s2)
    ensures PromptList(categories, prompts, Some(s1), category) == PromptList(categories, prompts, Some(s2), category)
  {
    assert |s1| == |s2|;
    FilterCongruent(prompts, ListFilter(categories, Some(s1), category), ListFilter(categories, Some(s2), category));
  }

  /**
   * A prompt whose title holds the search term, in any ASCII casing (`sub` lowers to
   * the same text as `term`), is listed by that search.
   */
  lemma PromptListFindsTitle(
    categories: seq<Category>, prompts: seq<Prompt>, p: Prompt, before: string, sub: string,
    after: string, term: string, category: Option<string>)
    requires p in prompts && MatchesCategory(categories, p, category)
    requires Lower(sub) == Lower(term) && p.title == before + sub + after
    ensures p in PromptList(categories, prompts, Some(term), category)
  {
    ContainsIgnoringCaseInfix(before, sub, after, term);
    assert Listed(categories, Some(term), category, p);
  }

  /**
   * With prompts owned by existing categories whose ids are unique, the category filter
   * keeps exactly the prompts whose serialized `category_slug` is the requested slug.
   */
  lemma CategoryFilterMatchesSerializedSlug(
    categories: seq<Category>, prompts: seq<Prompt>, likes: set<Membership>,
    deviceId: Option<string>, p: Prompt, slug: string)
    requires DistinctBy(categories, CategoryKey)
    requires p.category in CategoryIds(categories)
    requires slug != ""
    ensures MatchesCategory(categories, p, Some(slug))
        <==> SerializePrompt(p, categories, prompts, likes, deviceId).categorySlug == slug
  {
    var owner := CategoryById(categories, p.category);
    SerializedCategoryIsOwner(p, owner, categories, prompts, likes, deviceId);
    if InCategoryWithSlug(categories, p, slug) {
      var c :| c in categories && c.id == p.category && c.slug == slug;
      SerializedCategoryIsOwner(p, c, categories, prompts, likes, deviceId);
    }
  }

  /** A predicate choosing the prompts that `device` has favourited. */
  function FavouritedBy(favourites: set<Membership>, device: string): Prompt -> bool {
    (p: Prompt) => Membership(device, p.id) in favourites
  }

  /**
   * `FavouriteListCreate.get_queryset`: nothing without a truthy `device_id`, otherwise
   * exactly the prompts that device has favourited, each once.
   */
  function FavouriteList(prompts: seq<Prompt>, favourites: set<Membership>, deviceId: Option<string>): (r: seq<Prompt>)
    ensures !Supplied(deviceId) ==> r == []
    ensures Supplied(deviceId) ==>
      forall p :: p in r <==> p in prompts && Membership(deviceId.value, p.id) in favourites
    ensures forall p :: multiset(r)[p] <= multiset(prompts)[p]
  {
    if !Supplied(deviceId) then [] else Filter(prompts, FavouritedBy(favourites, deviceId.value))
  }

  /** After `perform_create` for a truthy device, the prompt is on that device's favourite list. */
  lemma FavouriteAddIsListed(prompts: seq<Prompt>, favourites: set<Membership>, device: string, p: Prompt)
    requires device != "" && p in prompts
    ensures p in FavouriteList(prompts, favourites + {Membership(device, p.id)}, Some(device))
  {
  }

  /** After `FavouriteDelete`, the prompt is no longer on that device's favourite list. */
  lemma FavouriteDeleteIsUnlisted(prompts: seq<Prompt>, favourites: set<Membership>, device: string, p: Prompt)
    ensures p !in FavouriteList(prompts, favourites - {Membership(device, p.id)}, Some(device))
  {
  }

  /**
   * The favourite list is serialized without a `device_id` in the serializer context,
   * so every entry reports `is_liked` false, whatever the like table holds.
   */
  function FavouriteListResponse(
    categories: seq<Category>, prompts: seq<Prompt>, favourites: set<Membership>,
    likes: set<Membership>, deviceId: Option<string>): (vs: seq<PromptView>)
    requires PromptsHaveCategories(prompts, categories)
    ensures var listed := FavouriteList(prompts, favourites, deviceId);
      && |vs| == |listed|
      && forall i :: 0 <= i < |vs| ==> vs[i] == SerializePrompt(listed[i], categories, prompts, likes, None)
    ensures forall i :: 0 <= i < |vs| ==> !vs[i].isLiked
  {
    var ps := FavouriteList(prompts, favourites, deviceId);
    FavouritesHaveCategories(prompts, favourites, deviceId, categories);
    SerializePrompts(ps, categories, prompts, likes, None)
  }

  lemma FavouritesHaveCategories(
    prompts: seq<Prompt>, favourites: set<Membership>, deviceId: Option<string>, categories: seq<Category>)
    requires PromptsHaveCategories(prompts, categories)
    ensures PromptsHaveCategories(FavouriteList(prompts, favourites, deviceId), categories)
  {
    var ps := FavouriteList(prompts, favourites, deviceId);
    forall p | p in ps ensures p.category in CategoryIds(categories) {
      assert multiset(ps)[p] <= multiset(prompts)[p];
    }
  }

  /** `PromptList.list`: the listing serialized with the request's `device_id` in context. */
  function PromptListResponse(
    categories: seq<Category>, prompts: seq<Prompt>, likes: set<Membership>,
    search: Option<string>, category: Option<string>, deviceId: Option<string>): (vs: seq<PromptView>)
    requires PromptsHaveCategories(prompts, categories)
    ensures var listed := PromptList(categories, prompts, search, category);
      && |vs| == |listed|
      && forall i :: 0 <= i < |vs| ==> vs[i] == SerializePrompt(listed[i], categories, prompts, likes, deviceId)
    ensures forall i :: 0 <= i < |vs| ==> vs[i].likeCount == LikeCount(likes, vs[i].id)
    ensures forall i :: 0 <= i < |vs| ==>
      (vs[i].isLiked <==> Supplied(deviceId) && Membership(deviceId.value, vs[i].id) in likes)
  {
    var listed := PromptList(categories, prompts, search, category);
    assert PromptsHaveCategories(listed, categories);
    SerializePrompts(listed, categories, prompts, likes, deviceId)
  }

  /** `CategoryList`: every category once, by ascending `order`. */
  function CategoryList(categories: seq<Category>): (r: seq<Category>)
    ensures forall i, j :: 0 <= i < j < |r| ==> r[i].order <= r[j].order
    ensures multiset(r) == multiset(categories)
  {
    var r := SortBy(categories, CategoryOrder);
    assert forall i, j :: 0 <= i < j < |r| ==> CategoryOrder(r[i]) <= CategoryOrder(r[j]);
    r
  }

  /** `CategoryList.list`: the ordered categories, each with its live `prompts_count`. */
  function CategoryListResponse(categories: seq<Category>, prompts: seq<Prompt>): (vs: seq<CategoryView>)
    ensures |vs| == |categories|
    ensures forall i :: 0 <= i < |vs| ==> vs[i] == SerializeCategory(CategoryList(categories)[i], prompts)
    ensures forall i, j :: 0 <= i < j < |vs| ==> vs[i].order <= vs[j].order
    ensures forall i :: 0 <= i < |vs| ==> vs[i].promptsCount == PromptsCount(prompts, vs[i].id)
  {
    var cs := CategoryList(categories);
    assert |cs| == |multiset(cs)| == |multiset(categories)| == |categories|;
    SerializeCategories(cs, prompts)
  }
}
