/**
 * The read-side of the API: what `CategorySerializer` and `PromptSerializer` put in a
 * response. Counts and `is_liked` are queries against the live tables, not stored fields.
 */
module Serializers {
  import opened Wrappers
  import opened Seqs
  import opened Models

  datatype CategoryView = CategoryView(
    id: CategoryId,
    name: string,
    slug: string,
    icon: string,
    order: int,
    promptsCount: nat)

  datatype PromptView = PromptView(
    id: PromptId,
    title: string,
    promptText: string,
    imageUrl: Option<string>,
    categoryData: CategoryView,
    categorySlug: string,
    tags: string,
    isPremium: bool,
    usageCount: int,
    likeCount: nat,
    isLiked: bool,
    createdAt: Timestamp)

  /** The category row with the given id (the `category` foreign key followed). */
  function CategoryById(categories: seq<Category>, id: CategoryId): (c: Category)
    requires id in CategoryIds(categories)
    ensures c in categories && c.id == id
  {
    assert categories == [categories[0]] + categories[1..];
    if categories[0].id == id then categories[0]
    else
      assert id in CategoryIds(categories[1..]) by {
        var c :| c in categories && c.id == id;
        assert c in categories[1..];
      }
      CategoryById(categories[1..], id)
  }

  /** `CategorySerializer`: the stored fields and `prompts_count`, counted live. */
  function SerializeCategory(c: Category, prompts: seq<Prompt>): (v: CategoryView)
    ensures v.id == c.id && v.name == c.name && v.slug == c.slug && v.icon == c.icon && v.order == c.order
    ensures v.promptsCount == PromptsCount(prompts, c.id)
  {
    CategoryView(c.id, c.name, c.slug, c.icon, c.order, PromptsCount(prompts, c.id))
  }

  /** `get_is_liked`: only a device named in the request context can have liked a prompt. */
  function IsLiked(likes: set<Membership>, deviceId: Option<string>, id: PromptId): (b: bool)
    ensures b <==> Supplied(deviceId) && Membership(deviceId.value, id) in likes
    ensures b ==> LikeCount(likes, id) >= 1
  {
    Supplied(deviceId) && Membership(deviceId.value, id) in likes
  }

  /**
   * `PromptSerializer` on one prompt: `like_count` is `likes.count` (the live count,
   * never the stored column), `category_slug` and `category_data` follow the category
   * foreign key, and `is_liked` is asked of the device in the context.
   */
  function SerializePrompt(
    p: Prompt, categories: seq<Category>, prompts: seq<Prompt>,
    likes: set<Membership>, deviceId: Option<string>): (v: PromptView)
    requires p.category in CategoryIds(categories)
    ensures v.id == p.id && v.title == p.title && v.promptText == p.promptText
    ensures v.imageUrl == p.imageUrl && v.tags == p.tags
    ensures v.usageCount == p.usageCount && v.isPremium == p.isPremium && v.createdAt == p.createdAt
    ensures v.likeCount == LikeCount(likes, p.id)
    ensures v.isLiked <==> Supplied(deviceId) && Membership(deviceId.value, p.id) in likes
    ensures v.categorySlug == v.categoryData.slug && v.categoryData.id == p.category
  {
    var c := CategoryById(categories, p.category);
    PromptView(p.id, p.title, p.promptText, p.imageUrl, SerializeCategory(c, prompts), c.slug,
               p.tags, p.isPremium, p.usageCount, LikeCount(likes, p.id),
               IsLiked(likes, deviceId, p.id), p.createdAt)
  }

  /** The serializer with `many=True`: one view per prompt, in query order. */
  function SerializePrompts(
    ps: seq<Prompt>, categories: seq<Category>, prompts: seq<Prompt>,
    likes: set<Membership>, deviceId: Option<string>): (vs: seq<PromptView>)
    requires PromptsHaveCategories(ps, categories)
    ensures |vs| == |ps|
    ensures forall i :: 0 <= i < |ps| ==> vs[i] == SerializePrompt(ps[i], categories, prompts, likes, deviceId)
  {
    if ps == [] then []
    else
      [SerializePrompt(ps[0], categories, prompts, likes, deviceId)]
        + SerializePrompts(ps[1..], categories, prompts, likes, deviceId)
  }

  /** The serializer with `many=True` on categories. */
  function SerializeCategories(cs: seq<Category>, prompts: seq<Prompt>): (vs: seq<CategoryView>)
    ensures |vs| == |cs|
    ensures forall i :: 0 <= i < |cs| ==> vs[i] == SerializeCategory(cs[i], prompts)
  {
    if cs == [] then [] else [SerializeCategory(cs[0], prompts)] + SerializeCategories(cs[1..], prompts)
  }

  /** The stored `like_count` column never reaches a response: drift in it is not exposed. */
  lemma StoredLikeCountNotExposed(
    p: Prompt, stored: int, categories: seq<Category>, prompts: seq<Prompt>,
    likes: set<Membership>, deviceId: Option<string>)
    requires p.category in CategoryIds(categories)
    ensures SerializePrompt(p.(likeCount := stored), categories, prompts, likes, deviceId)
         == SerializePrompt(p, categories, prompts, likes, deviceId)
  {
  }

  /**
   * With category ids unique, `category_slug` and `category_data` are those of the
   * one category that owns the prompt.
   */
  lemma SerializedCategoryIsOwner(
    p: Prompt, c: Category, categories: seq<Category>, prompts: seq<Prompt>,
    likes: set<Membership>, deviceId: Option<string>)
    requires DistinctBy(categories, CategoryKey)
    requires c in categories && c.id == p.category
    ensures SerializePrompt(p, categories, prompts, likes, deviceId).categorySlug == c.slug
    ensures SerializePrompt(p, categories, prompts, likes, deviceId).categoryData
         == SerializeCategory(c, prompts)
  {
    var owner := CategoryById(categories, p.category);
    var i :| 0 <= i < |categories| && categories[i] == c;
    var j :| 0 <= j < |categories| && categories[j] == owner;
    assert CategoryKey(categories[i]) == CategoryKey(categories[j]);
    assert i == j;
  }
}
