/**
 * The schema of the prompt library: categories, prompts and the two device-scoped
 * membership tables (favourites and likes), with the constraints the schema declares
 * (primary keys, `unique=True`, `unique_together`, foreign keys with `on_delete=CASCADE`)
 * stated as predicates over table contents.
 */
module Models {
  import opened Wrappers
  import opened Seqs

  /** Primary keys are UUIDs; the model treats them as opaque keys. */
  type CategoryId = nat
  type PromptId = nat
  /** `created_at` / `updated_at`: a clock reading supplied by the caller. */
  type Timestamp = int

  /** The range of a `BigIntegerField` (a signed 64-bit SQLite INTEGER). */
  const BIG_INT_MIN: int := -0x8000_0000_0000_0000
  const BIG_INT_MAX: int := 0x7FFF_FFFF_FFFF_FFFF

  predicate InBigIntRange(n: int) {
    BIG_INT_MIN <= n <= BIG_INT_MAX
  }

  datatype Category = Category(
    id: CategoryId,
    name: string,
    slug: string,
    icon: string,
    order: int,
    createdAt: Timestamp)

  datatype Prompt = Prompt(
    id: PromptId,
    title: string,
    promptText: string,
    imageUrl: Option<string>,
    category: CategoryId,
    tags: string,
    isPremium: bool,
    usageCount: int,
    likeCount: int,
    createdAt: Timestamp,
    updatedAt: Timestamp)

  /**
   * A favourite or like row, identified by its `unique_together` key
   * `(device_id, prompt)`; keeping these rows in a set is that constraint.
   */
  datatype Membership = Membership(deviceId: string, prompt: PromptId)

  function CategoryKey(c: Category): CategoryId { c.id }
  function CategoryName(c: Category): string { c.name }
  function CategorySlug(c: Category): string { c.slug }
  function PromptKey(p: Prompt): PromptId { p.id }

  function CategoryIds(categories: seq<Category>): set<CategoryId> {
    set c | c in categories :: c.id
  }

  function PromptIds(prompts: seq<Prompt>): set<PromptId> {
    set p | p in prompts :: p.id
  }

  function CategoryNames(categories: seq<Category>): set<string> {
    set c | c in categories :: c.name
  }

  function CategorySlugs(categories: seq<Category>): set<string> {
    set c | c in categories :: c.slug
  }

  /** The position of the prompt row with primary key `id`, if there is one (`objects.get(pk=id)`). */
  function PromptIndex(prompts: seq<Prompt>, id: PromptId): (r: Option<nat>)
    ensures r.Some? ==> r.value < |prompts| && prompts[r.value].id == id
    ensures r.None? <==> id !in PromptIds(prompts)
  {
    if prompts == [] then None
    else if prompts[0].id == id then Some(0)
    else
      assert prompts == [prompts[0]] + prompts[1..];
      assert PromptIds(prompts) == {prompts[0].id} + PromptIds(prompts[1..]);
      match PromptIndex(prompts[1..], id)
      case None => None
      case Some(k) => Some(k + 1)
  }

  /** Category ids are a primary key; names and slugs are `unique=True`. */
  ghost predicate CategoriesUnique(categories: seq<Category>) {
    && DistinctBy(categories, CategoryKey)
    && DistinctBy(categories, CategoryName)
    && DistinctBy(categories, CategorySlug)
  }

  /** Prompt ids are a primary key. */
  ghost predicate PromptsUnique(prompts: seq<Prompt>) {
    DistinctBy(prompts, PromptKey)
  }

  /** `Prompt.category` is a required foreign key. */
  ghost predicate PromptsHaveCategories(prompts: seq<Prompt>, categories: seq<Category>) {
    forall p :: p in prompts ==> p.category in CategoryIds(categories)
  }

  /** `Favourite.prompt` and `PromptLike.prompt` are required foreign keys. */
  ghost predicate RowsHavePrompts(rows: set<Membership>, prompts: seq<Prompt>) {
    forall m :: m in rows ==> m.prompt in PromptIds(prompts)
  }

  /** The stored usage counter fits its `BigIntegerField` column. */
  ghost predicate CountersInRange(prompts: seq<Prompt>) {
    forall p :: p in prompts ==> InBigIntRange(p.usageCount)
  }

  /** Every constraint the schema declares, over the four tables. */
  ghost predicate TablesValid(
    categories: seq<Category>, prompts: seq<Prompt>,
    favourites: set<Membership>, likes: set<Membership>)
  {
    && CategoriesUnique(categories)
    && PromptsUnique(prompts)
    && PromptsHaveCategories(prompts, categories)
    && RowsHavePrompts(favourites, prompts)
    && RowsHavePrompts(likes, prompts)
    && CountersInRange(prompts)
  }

  /** The filter of the reverse relation `category.prompts`. */
  function InCategory(id: CategoryId): Prompt -> bool {
    (p: Prompt) => p.category == id
  }

  /** `category.prompts.count()`: the number of prompt rows owned by the category. */
  function PromptsCount(prompts: seq<Prompt>, id: CategoryId): (n: nat)
    ensures n <= |prompts|
    ensures n == 0 <==> forall p :: p in prompts ==> p.category != id
  {
    var owned := Filter(prompts, InCategory(id));
    assert |owned| != 0 ==> owned[0] in owned;
    |owned|
  }

  /** `prompt.likes.count()`: the number of like rows for the prompt, counted live. */
  function LikeCount(likes: set<Membership>, id: PromptId): (n: nat)
    ensures n == 0 <==> forall m :: m in likes ==> m.prompt != id
  {
    var rows := set m | m in likes && m.prompt == id;
    assert forall m :: m in likes && m.prompt == id ==> m in rows;
    |rows|
  }

  /** The denormalised `like_count` column agrees with the live count, for every prompt. */
  ghost predicate LikeCountersAgree(prompts: seq<Prompt>, likes: set<Membership>) {
    forall p :: p in prompts ==> p.likeCount == LikeCount(likes, p.id)
  }

  /** The per-row two-state machine of a like: present rows are removed, absent ones added. */
  function Toggled(rows: set<Membership>, m: Membership): (r: set<Membership>)
    ensures m in r <==> m !in rows
    ensures forall n :: n != m ==> (n in r <==> n in rows)
  {
    if m in rows then rows - {m} else rows + {m}
  }

  /** The membership rows that survive when the prompts `gone` are deleted (CASCADE). */
  function WithoutPrompts(rows: set<Membership>, gone: set<PromptId>): set<Membership> {
    set m | m in rows && m.prompt !in gone
  }

  /**
   * A freshly inserted prompt: `like_count` is not writable and takes its default 0,
   * `is_premium` and `usage_count` take their defaults (false, 0) when not supplied,
   * and `auto_now_add` / `auto_now` stamp both timestamps with `now`.
   */
  function NewPrompt(
    id: PromptId, title: string, promptText: string, imageUrl: Option<string>,
    category: CategoryId, tags: string, isPremium: Option<bool>, usageCount: Option<int>,
    now: Timestamp): (p: Prompt)
    ensures p.id == id && p.category == category && p.title == title && p.promptText == promptText
    ensures p.likeCount == 0 && p.createdAt == now && p.updatedAt == now
    ensures p.imageUrl == imageUrl && p.tags == tags
    ensures p.isPremium == if isPremium.Some? then isPremium.value else false
    ensures p.usageCount == if usageCount.Some? then usageCount.value else 0
  {
    Prompt(id, title, promptText, imageUrl, category, tags,
           isPremium.GetOr(false), usageCount.GetOr(0), 0, now, now)
  }

  /**
   * `usage_count += 1` and `save()` on row `i`: its counter goes up by one, `auto_now`
   * restamps `updated_at`, and every other field and every other row stays.
   */
  function UsedOnce(prompts: seq<Prompt>, i: nat, now: Timestamp): (r: seq<Prompt>)
    requires i < |prompts|
    ensures |r| == |prompts| && r[i].usageCount == prompts[i].usageCount + 1 && r[i].updatedAt == now
    ensures r[i] == prompts[i].(usageCount := r[i].usageCount, updatedAt := now)
    ensures forall j :: 0 <= j < |r| && j != i ==> r[j] == prompts[j]
  {
    prompts[i := prompts[i].(usageCount := prompts[i].usageCount + 1, updatedAt := now)]
  }

  /**
   * `prompt.like_count = count` and `save()` on row `i`: `auto_now` restamps
   * `updated_at`, and every other field and every other row stays.
   */
  function Recounted(prompts: seq<Prompt>, i: nat, count: nat, now: Timestamp): (r: seq<Prompt>)
    requires i < |prompts|
    ensures |r| == |prompts| && r[i].likeCount == count && r[i].updatedAt == now
    ensures r[i] == prompts[i].(likeCount := count, updatedAt := now)
    ensures forall j :: 0 <= j < |r| && j != i ==> r[j] == prompts[j]
  {
    prompts[i := prompts[i].(likeCount := count, updatedAt := now)]
  }

  /** Toggling the same row twice restores the membership table. */
  lemma ToggledTwice(rows: set<Membership>, m: Membership)
    ensures Toggled(Toggled(rows, m), m) == rows
  {
  }

  /** A toggle moves the toggled prompt's live like count by exactly one and no other prompt's. */
  lemma ToggledLikeCount(likes: set<Membership>, m: Membership, id: PromptId)
    ensures LikeCount(Toggled(likes, m), id) ==
      if id != m.prompt then LikeCount(likes, id)
      else if m in likes then LikeCount(likes, id) - 1
      else LikeCount(likes, id) + 1
  {
    var before := set n | n in likes && n.prompt == id;
    var after := set n | n in Toggled(likes, m) && n.prompt == id;
    if id != m.prompt {
      assert after == before;
    } else if m in likes {
      assert after == before - {m};
    } else {
      assert after == before + {m};
    }
  }

  /** Deleting some prompts' rows leaves the live like count of every other prompt alone. */
  lemma WithoutPromptsLikeCount(likes: set<Membership>, gone: set<PromptId>, id: PromptId)
    requires id !in gone
    ensures LikeCount(WithoutPrompts(likes, gone), id) == LikeCount(likes, id)
  {
    assert (set n | n in WithoutPrompts(likes, gone) && n.prompt == id)
        == (set n | n in likes && n.prompt == id);
  }

  /** A new prompt row adds one to its own category's prompts_count and nothing to any other's. */
  lemma PromptsCountSnoc(prompts: seq<Prompt>, p: Prompt, id: CategoryId)
    ensures PromptsCount(prompts + [p], id) == PromptsCount(prompts, id) + (if p.category == id then 1 else 0)
  {
    FilterSnoc(prompts, p, InCategory(id));
  }

  /** The prompts_count values of a list of categories, added up. */
  function CountsTotal(categories: seq<Category>, prompts: seq<Prompt>): nat {
    if categories == [] then 0
    else PromptsCount(prompts, categories[0].id) + CountsTotal(categories[1..], prompts)
  }

  /** The number of categories in `categories` whose id is `id`. */
  function IdOccurrences(categories: seq<Category>, id: CategoryId): nat {
    if categories == [] then 0
    else (if categories[0].id == id then 1 else 0) + IdOccurrences(categories[1..], id)
  }

  lemma {:induction false} IdOccurrencesOfKey(categories: seq<Category>, id: CategoryId)
    requires DistinctBy(categories, CategoryKey)
    ensures IdOccurrences(categories, id) == if id in CategoryIds(categories) then 1 else 0
  {
    if categories != [] {
      var t := categories[1..];
      assert DistinctBy(t, CategoryKey) by {
        forall i, j | 0 <= i < j < |t| ensures CategoryKey(t[i]) != CategoryKey(t[j]) {
          assert t[i] == categories[i + 1] && t[j] == categories[j + 1];
        }
      }
      IdOccurrencesOfKey(t, id);
      assert categories == [categories[0]] + t;
      assert CategoryIds(categories) == {categories[0].id} + CategoryIds(t);
      if categories[0].id == id {
        forall c | c in t ensures c.id != id {
          var k :| 0 <= k < |t| && t[k] == c;
          assert categories[k + 1] == c;
        }
      }
    }
  }

  /** Adding a prompt row in front adds one to the total of the categories owning it. */
  lemma {:induction false} CountsTotalCons(categories: seq<Category>, p: Prompt, prompts: seq<Prompt>)
    ensures CountsTotal(categories, [p] + prompts)
         == CountsTotal(categories, prompts) + IdOccurrences(categories, p.category)
  {
    if categories != [] {
      CountsTotalCons(categories[1..], p, prompts);
      assert ([p] + prompts)[1..] == prompts;
    }
  }

  /**
   * Each prompt belongs to exactly one existing category, so the prompts_count
   * values of all categories add up to the number of prompts.
   */
  lemma {:induction false} CountsTotalIsPromptCount(categories: seq<Category>, prompts: seq<Prompt>)
    requires DistinctBy(categories, CategoryKey)
    requires PromptsHaveCategories(prompts, categories)
    ensures CountsTotal(categories, prompts) == |prompts|
  {
    if prompts == [] {
      ZeroTotal(categories);
    } else {
      var t := prompts[1..];
      assert prompts == [prompts[0]] + t;
      CountsTotalIsPromptCount(categories, t);
      CountsTotalCons(categories, prompts[0], t);
      IdOccurrencesOfKey(categories, prompts[0].category);
    }
  }

  lemma {:induction false} ZeroTotal(categories: seq<Category>)
    ensures CountsTotal(categories, []) == 0
  {
    if categories != [] {
      ZeroTotal(categories[1..]);
    }
  }
}
