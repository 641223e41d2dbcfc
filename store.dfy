/**
 * The writing views, as methods on the in-memory store of the four tables:
 * `LikeToggle.post`, `FavouriteListCreate.perform_create`, `FavouriteDelete.delete`,
 * `PromptDetail.retrieve` (which bumps `usage_count`), the admin create views of
 * categories and prompts, and the admin delete views with their `on_delete=CASCADE`
 * consequences. Each view method keeps every schema constraint, reports the source's
 * error cases without changing anything, and states the whole new state. The `Cascade`
 * helper only rewrites the tables; `CategoryDelete` proves the constraints around it.
 */
module Store {
  import opened Wrappers
  import opened Seqs
  import opened Models
  import opened Serializers
  import opened Http

  /** The body of a successful like toggle: `{"liked": ..., "like_count": ...}`. */
  datatype LikeReply = LikeReply(liked: bool, likeCount: nat)

  function OtherPrompt(id: PromptId): Prompt -> bool {
    (p: Prompt) => p.id != id
  }

  function OutsideCategory(id: CategoryId): Prompt -> bool {
    (p: Prompt) => p.category != id
  }

  function OtherCategory(id: CategoryId): Category -> bool {
    (c: Category) => c.id != id
  }

  /** The ids of the prompts the category owns: the rows its deletion cascades to. */
  function OwnedPrompts(prompts: seq<Prompt>, id: CategoryId): (gone: set<PromptId>)
    ensures forall p :: p in prompts && p.category == id ==> p.id in gone
    ensures forall pid :: pid in gone <==> exists p :: p in prompts && p.category == id && p.id == pid
  {
    PromptIds(Filter(prompts, InCategory(id)))
  }

  /** Overwriting a prompt row in place with the same key and category keeps every constraint. */
  lemma UpdateKeepsTables(
    categories: seq<Category>, prompts: seq<Prompt>, favourites: set<Membership>,
    likes: set<Membership>, i: nat, p: Prompt)
    requires TablesValid(categories, prompts, favourites, likes)
    requires i < |prompts| && p.id == prompts[i].id && p.category == prompts[i].category
    requires InBigIntRange(p.usageCount)
    ensures PromptIds(prompts[i := p]) == PromptIds(prompts)
    ensures TablesValid(categories, prompts[i := p], favourites, likes)
  {
    var ps := prompts[i := p];
    assert forall x :: x in ps ==> x == p || x in prompts;
    forall id | id in PromptIds(prompts) ensures id in PromptIds(ps) {
      var q :| q in prompts && q.id == id;
      var j :| 0 <= j < |prompts| && prompts[j] == q;
      assert ps[j].id == id;
    }
    DistinctUpdate(prompts, i, p, PromptKey);
  }

  /** Overwriting a prompt row without touching its key or its like counter keeps the counters agreeing. */
  lemma UpdateKeepsCounters(prompts: seq<Prompt>, likes: set<Membership>, i: nat, p: Prompt)
    requires LikeCountersAgree(prompts, likes)
    requires i < |prompts| && p.id == prompts[i].id && p.likeCount == prompts[i].likeCount
    ensures LikeCountersAgree(prompts[i := p], likes)
  {
    var ps := prompts[i := p];
    forall q | q in ps ensures q.likeCount == LikeCount(likes, q.id) {
      var j :| 0 <= j < |ps| && ps[j] == q;
      if j != i {
        assert q == prompts[j];
      } else {
        assert prompts[i] in prompts;
      }
    }
  }

  /**
   * The toggle keeps the stored counters in agreement with the live counts:
   * it rewrites the toggled prompt's counter and no other prompt's count moves.
   */
  lemma ToggleKeepsCounters(prompts: seq<Prompt>, likes: set<Membership>, i: nat, m: Membership, now: Timestamp)
    requires PromptsUnique(prompts) && LikeCountersAgree(prompts, likes)
    requires i < |prompts| && m.prompt == prompts[i].id
    ensures LikeCountersAgree(
      prompts[i := prompts[i].(likeCount := LikeCount(Toggled(likes, m), m.prompt), updatedAt := now)],
      Toggled(likes, m))
  {
    var ps := prompts[i := prompts[i].(likeCount := LikeCount(Toggled(likes, m), m.prompt), updatedAt := now)];
    forall q | q in ps ensures q.likeCount == LikeCount(Toggled(likes, m), q.id) {
      var j :| 0 <= j < |ps| && ps[j] == q;
      if j != i {
        assert q == prompts[j];
        assert PromptKey(prompts[j]) != PromptKey(prompts[i]);
        ToggledLikeCount(likes, m, q.id);
      }
    }
  }

  /** Appending a prompt with a fresh key, an existing category and no likes keeps every constraint. */
  lemma InsertKeepsTables(
    categories: seq<Category>, prompts: seq<Prompt>, favourites: set<Membership>,
    likes: set<Membership>, p: Prompt)
    requires TablesValid(categories, prompts, favourites, likes)
    requires p.id !in PromptIds(prompts) && p.category in CategoryIds(categories)
    requires InBigIntRange(p.usageCount) && p.likeCount == 0
    ensures TablesValid(categories, prompts + [p], favourites, likes)
    ensures LikeCount(likes, p.id) == 0
    ensures LikeCountersAgree(prompts, likes) ==> LikeCountersAgree(prompts + [p], likes)
  {
    DistinctSnoc(prompts, p, PromptKey);
    var ps := prompts + [p];
    assert forall q :: q in ps <==> q in prompts || q == p;
    assert PromptIds(prompts) <= PromptIds(ps);
    assert (set m | m in likes && m.prompt == p.id) == {};
  }

  /** Deleting one prompt with its favourites and likes keeps every constraint. */
  lemma PromptDeleteKeepsTables(
    categories: seq<Category>, prompts: seq<Prompt>, favourites: set<Membership>,
    likes: set<Membership>, id: PromptId)
    requires TablesValid(categories, prompts, favourites, likes)
    ensures TablesValid(categories, Filter(prompts, OtherPrompt(id)),
                        WithoutPrompts(favourites, {id}), WithoutPrompts(likes, {id}))
    ensures LikeCountersAgree(prompts, likes) ==>
            LikeCountersAgree(Filter(prompts, OtherPrompt(id)), WithoutPrompts(likes, {id}))
  {
    var ps := Filter(prompts, OtherPrompt(id));
    FilterDistinct(prompts, OtherPrompt(id), PromptKey);
    forall m | m in WithoutPrompts(favourites, {id}) + WithoutPrompts(likes, {id})
      ensures m.prompt in PromptIds(ps)
    {
      var q :| q in prompts && q.id == m.prompt;
      assert q in ps;
    }
    if LikeCountersAgree(prompts, likes) {
      forall q | q in ps ensures q.likeCount == LikeCount(WithoutPrompts(likes, {id}), q.id) {
        WithoutPromptsLikeCount(likes, {id}, q.id);
      }
    }
  }

  /** Deleting a category with its prompts, and their favourites and likes, keeps every constraint. */
  lemma CategoryDeleteKeepsTables(
    categories: seq<Category>, prompts: seq<Prompt>, favourites: set<Membership>,
    likes: set<Membership>, id: CategoryId)
    requires TablesValid(categories, prompts, favourites, likes)
    ensures var gone := OwnedPrompts(prompts, id);
      TablesValid(Filter(categories, OtherCategory(id)), Filter(prompts, OutsideCategory(id)),
                  WithoutPrompts(favourites, gone), WithoutPrompts(likes, gone))
    ensures var gone := OwnedPrompts(prompts, id);
      LikeCountersAgree(prompts, likes) ==>
      LikeCountersAgree(Filter(prompts, OutsideCategory(id)), WithoutPrompts(likes, gone))
    ensures id !in CategoryIds(Filter(categories, OtherCategory(id)))
    ensures forall p :: p in Filter(prompts, OutsideCategory(id)) ==> p.category != id
  {
    var gone := OwnedPrompts(prompts, id);
    var cs := Filter(categories, OtherCategory(id));
    var ps := Filter(prompts, OutsideCategory(id));
    FilterDistinct(categories, OtherCategory(id), CategoryKey);
    FilterDistinct(categories, OtherCategory(id), CategoryName);
    FilterDistinct(categories, OtherCategory(id), CategorySlug);
    FilterDistinct(prompts, OutsideCategory(id), PromptKey);
    forall p | p in ps ensures p.category in CategoryIds(cs) {
      var c :| c in categories && c.id == p.category;
      assert c in cs;
    }
    forall p | p in ps ensures p.id !in gone {
      if p.id in gone {
        var q :| q in Filter(prompts, InCategory(id)) && q.id == p.id;
        DistinctKeyDetermines(prompts, PromptKey, p, q);
      }
    }
    forall m | m in WithoutPrompts(favourites, gone) + WithoutPrompts(likes, gone)
      ensures m.prompt in PromptIds(ps)
    {
      var q :| q in prompts && q.id == m.prompt;
      assert q in ps;
    }
    if LikeCountersAgree(prompts, likes) {
      forall q | q in ps ensures q.likeCount == LikeCount(WithoutPrompts(likes, gone), q.id) {
        WithoutPromptsLikeCount(likes, gone, q.id);
      }
    }
  }

  class PromptStore {
    var categories: seq<Category>
    var prompts: seq<Prompt>
    var favourites: set<Membership>
    var likes: set<Membership>

    /** The schema's constraints hold of the current tables. */
    ghost predicate Valid()
      reads this
    {
      TablesValid(categories, prompts, favourites, likes)
    }

    /** The stored `like_count` of every prompt is its live count. */
    ghost predicate CountersAgree()
      reads this
    {
      LikeCountersAgree(prompts, likes)
    }

    /** An empty database. */
    constructor ()
      ensures Valid() && CountersAgree()
      ensures categories == [] && prompts == [] && favourites == {} && likes == {}
    {
      categories, prompts, favourites, likes := [], [], {}, {};
    }

    /**
     * `CategoryCreateView`: a taken name or slug is refused (400), a taken primary key
     * fails the insert; otherwise the row is appended with `created_at = now` and
     * `order` defaulting to 0.
     */
    method CategoryCreate(id: CategoryId, name: string, slug: string, icon: string, order: Option<int>, now: Timestamp)
      returns (r: Result<Category>)
      requires Valid()
      modifies this
      ensures Valid()
      ensures name in CategoryNames(old(categories)) || slug in CategorySlugs(old(categories)) ==>
                r == Err(AlreadyExists)
      ensures name !in CategoryNames(old(categories)) && slug !in CategorySlugs(old(categories)) ==>
                r == (if id in CategoryIds(old(categories)) then Err(IntegrityError)
                      else Ok(Category(id, name, slug, icon, order.GetOr(0), now)))
      ensures r.Err? ==> unchanged(this)
      ensures r.Ok? ==> categories == old(categories) + [r.value]
      ensures prompts == old(prompts) && favourites == old(favourites) && likes == old(likes)
    {
      if name in CategoryNames(categories) || slug in CategorySlugs(categories) {
        return Err(AlreadyExists);
      }
      if id in CategoryIds(categories) {
        return Err(IntegrityError);
      }
      var c := Category(id, name, slug, icon, order.GetOr(0), now);
      DistinctSnoc(categories, c, CategoryKey);
      DistinctSnoc(categories, c, CategoryName);
      DistinctSnoc(categories, c, CategorySlug);
      assert CategoryIds(categories) <= CategoryIds(categories + [c]);
      categories := categories + [c];
      r := Ok(c);
    }

    /**
     * `PromptCreateView`: the category must exist (400) and a supplied usage count must
     * fit its column (400); a taken primary key fails the insert. The new row takes the
     * model's defaults: like count 0, and usage count 0 and not premium unless supplied.
     */
    method PromptCreate(
      id: PromptId, title: string, promptText: string, imageUrl: Option<string>,
      category: CategoryId, tags: string, isPremium: Option<bool>, usageCount: Option<int>,
      now: Timestamp)
      returns (r: Result<Prompt>)
      requires Valid()
      modifies this
      ensures Valid()
      ensures old(CountersAgree()) ==> CountersAgree()
      ensures r == (
        if category !in CategoryIds(old(categories)) then Err(InvalidCategory)
        else if usageCount.Some? && !InBigIntRange(usageCount.value) then Err(OutOfRange)
        else if id in PromptIds(old(prompts)) then Err(IntegrityError)
        else Ok(NewPrompt(id, title, promptText, imageUrl, category, tags, isPremium, usageCount, now)))
      ensures r.Err? ==> unchanged(this)
      ensures r.Ok? ==> prompts == old(prompts) + [r.value]
      ensures r.Ok? ==> PromptsCount(prompts, category) == PromptsCount(old(prompts), category) + 1
      ensures r.Ok? ==> LikeCount(likes, id) == 0
      ensures categories == old(categories) && favourites == old(favourites) && likes == old(likes)
    {
      if category !in CategoryIds(categories) {
        return Err(InvalidCategory);
      }
      if usageCount.Some? && !InBigIntRange(usageCount.value) {
        return Err(OutOfRange);
      }
      if id in PromptIds(prompts) {
        return Err(IntegrityError);
      }
      var p := NewPrompt(id, title, promptText, imageUrl, category, tags, isPremium, usageCount, now);
      PromptsCountSnoc(prompts, p, category);
      Insert(p);
      r := Ok(p);
    }

    /** The INSERT of a new prompt row with a fresh key, an existing category and no likes. */
    method Insert(p: Prompt)
      requires Valid()
      requires p.id !in PromptIds(prompts) && p.category in CategoryIds(categories)
      requires InBigIntRange(p.usageCount) && p.likeCount == 0
      modifies this
      ensures Valid()
      ensures old(CountersAgree()) ==> CountersAgree()
      ensures prompts == old(prompts) + [p] && LikeCount(likes, p.id) == 0
      ensures categories == old(categories) && favourites == old(favourites) && likes == old(likes)
    {
      InsertKeepsTables(categories, prompts, favourites, likes, p);
      prompts := prompts + [p];
    }

    /**
     * `PromptDetail.retrieve`: an unknown id is 404; otherwise `usage_count` goes up by
     * exactly one, the row is saved (stamping `updated_at`) and the serialized row is
     * returned. Saving a count past the 64-bit column fails and changes nothing.
     */
    method PromptDetail(id: PromptId, deviceId: Option<string>, now: Timestamp) returns (r: Result<PromptView>)
      requires Valid()
      modifies this
      ensures Valid()
      ensures old(CountersAgree()) ==> CountersAgree()
      ensures r.Err? ==> unchanged(this)
      ensures r.Err? ==> r.error == NotFound || r.error == Overflow
      ensures r == Err(NotFound) <==> id !in PromptIds(old(prompts))
      ensures r == Err(Overflow) <==>
        id in PromptIds(old(prompts)) && old(prompts)[PromptIndex(old(prompts), id).value].usageCount == BIG_INT_MAX
      ensures r.Ok? ==>
        var i := PromptIndex(old(prompts), id).value;
        && prompts == UsedOnce(old(prompts), i, now)
        && r.value.usageCount == old(prompts)[i].usageCount + 1
        && r.value == SerializePrompt(prompts[i], categories, prompts, likes, deviceId)
      ensures categories == old(categories) && favourites == old(favourites) && likes == old(likes)
    {
      var found := PromptIndex(prompts, id);
      if found.None? {
        return Err(NotFound);
      }
      var i := found.value;
      var p := prompts[i];
      if p.usageCount == BIG_INT_MAX {
        return Err(Overflow);
      }
      BumpUsage(i, now);
      r := Ok(SerializePrompt(prompts[i], categories, prompts, likes, deviceId));
    }

    /** `prompt.usage_count += 1; prompt.save()` on row `i`. */
    method BumpUsage(i: nat, now: Timestamp)
      requires Valid()
      requires i < |prompts| && prompts[i].usageCount < BIG_INT_MAX
      modifies this
      ensures Valid()
      ensures old(CountersAgree()) ==> CountersAgree()
      ensures prompts == UsedOnce(old(prompts), i, now)
      ensures categories == old(categories) && favourites == old(favourites) && likes == old(likes)
    {
      var p := prompts[i];
      assert p in prompts;
      var updated := p.(usageCount := p.usageCount + 1, updatedAt := now);
      UpdateKeepsTables(categories, prompts, favourites, likes, i, updated);
      if LikeCountersAgree(prompts, likes) {
        UpdateKeepsCounters(prompts, likes, i, updated);
      }
      prompts := prompts[i := updated];
    }

    /**
     * `LikeToggle.post`: without a truthy `device_id` it is 400, on an unknown prompt 404,
     * both with nothing changed. Otherwise the `(device, prompt)` like row flips between
     * absent and present, the prompt's `like_count` is recomputed from the live like rows
     * and saved, and that count is returned with whether the row is now present.
     */
    method LikeToggle(id: PromptId, deviceId: Option<string>, now: Timestamp) returns (r: Result<LikeReply>)
      requires Valid()
      modifies this
      ensures Valid()
      ensures old(CountersAgree()) ==> CountersAgree()
      ensures !Supplied(deviceId) ==> r == Err(DeviceIdRequired) && unchanged(this)
      ensures Supplied(deviceId) && id !in PromptIds(old(prompts)) ==> r == Err(NotFound) && unchanged(this)
      ensures Supplied(deviceId) && id in PromptIds(old(prompts)) ==>
        var m := Membership(deviceId.value, id);
        var i := PromptIndex(old(prompts), id).value;
        && r.Ok?
        && r.value.liked == (m !in old(likes))
        && likes == Toggled(old(likes), m)
        && r.value.likeCount == LikeCount(likes, id)
        && r.value.liked == IsLiked(likes, deviceId, id)
        && prompts == Recounted(old(prompts), i, r.value.likeCount, now)
      ensures PromptIds(prompts) == PromptIds(old(prompts))
      ensures categories == old(categories) && favourites == old(favourites)
    {
      if !Supplied(deviceId) {
        return Err(DeviceIdRequired);
      }
      var found := PromptIndex(prompts, id);
      if found.None? {
        return Err(NotFound);
      }
      var i := found.value;
      var m := Membership(deviceId.value, id);
      var liked: bool;
      ghost var before := likes;
      if m in likes {
        likes := likes - {m};
        liked := false;
      } else {
        likes := likes + {m};
        liked := true;
      }
      assert likes == Toggled(before, m);
      var count := LikeCount(likes, id);
      var p := prompts[i];
      assert p in prompts;
      if LikeCountersAgree(prompts, before) {
        ToggleKeepsCounters(prompts, before, i, m, now);
      }
      UpdateKeepsTables(categories, prompts, favourites, likes, i, p.(likeCount := count, updatedAt := now));
      prompts := Recounted(prompts, i, count, now);
      r := Ok(LikeReply(liked, count));
    }

    /**
     * Two toggles of the same `(device, prompt)` in a row: the like table is restored,
     * the two replies disagree on `liked`, and the second reports the original count.
     */
    method LikeToggleTwice(id: PromptId, deviceId: Option<string>, now1: Timestamp, now2: Timestamp)
      returns (first: Result<LikeReply>, second: Result<LikeReply>)
      requires Valid()
      modifies this
      ensures Valid()
      ensures likes == old(likes) && favourites == old(favourites) && categories == old(categories)
      ensures first.Ok? <==> second.Ok?
      ensures first.Ok? <==> Supplied(deviceId) && id in PromptIds(old(prompts))
      ensures first.Err? ==> first == second && unchanged(this)
      ensures first.Ok? ==>
        var i := PromptIndex(old(prompts), id).value;
        && first.value.liked != second.value.liked
        && second.value.likeCount == LikeCount(old(likes), id)
        && prompts == Recounted(Recounted(old(prompts), i, first.value.likeCount, now1), i, second.value.likeCount, now2)
      ensures old(CountersAgree()) ==> CountersAgree() && forall p :: p in prompts ==>
        p.likeCount == LikeCount(old(likes), p.id)
    {
      first := LikeToggle(id, deviceId, now1);
      ghost var middle := likes;
      second := LikeToggle(id, deviceId, now2);
      if first.Ok? {
        var m := Membership(deviceId.value, id);
        assert middle == Toggled(old(likes), m);
        ToggledTwice(old(likes), m);
        assert likes == old(likes);
      }
    }

    /**
     * `FavouriteListCreate.perform_create`: `get_or_create` of the `(device, prompt)` row.
     * A missing `device_id` or a missing or unknown prompt fails the insert (NOT NULL or
     * foreign key) and changes nothing. Otherwise the row is present afterwards, and was
     * created exactly when it was absent: adding an existing favourite changes nothing.
     */
    method FavouriteCreate(deviceId: Option<string>, promptId: Option<PromptId>) returns (r: Result<bool>)
      requires Valid()
      modifies this
      ensures Valid()
      ensures deviceId.None? || promptId.None? || promptId.value !in PromptIds(old(prompts)) ==>
                r == Err(IntegrityError) && unchanged(this)
      ensures deviceId.Some? && promptId.Some? && promptId.value in PromptIds(old(prompts)) ==>
        var m := Membership(deviceId.value, promptId.value);
        && r == Ok(m !in old(favourites))
        && favourites == old(favourites) + {m}
        && (m in old(favourites) ==> favourites == old(favourites))
      ensures categories == old(categories) && prompts == old(prompts) && likes == old(likes)
    {
      if deviceId.None? || promptId.None? || promptId.value !in PromptIds(prompts) {
        return Err(IntegrityError);
      }
      var m := Membership(deviceId.value, promptId.value);
      r := Ok(m !in favourites);
      favourites := favourites + {m};
    }

    /**
     * `FavouriteDelete.delete`: the `(device, prompt)` row is removed and `removed` is
     * reported; when there is no such row (a missing `device_id` matches none) the
     * answer is "Not in favourites" (404) and nothing changes.
     */
    method FavouriteDelete(deviceId: Option<string>, id: PromptId) returns (r: Result<bool>)
      requires Valid()
      modifies this
      ensures Valid()
      ensures deviceId.None? || Membership(deviceId.value, id) !in old(favourites) ==>
                r == Err(NotInFavourites) && unchanged(this)
      ensures deviceId.Some? && Membership(deviceId.value, id) in old(favourites) ==>
                r == Ok(true) && favourites == old(favourites) - {Membership(deviceId.value, id)}
      ensures categories == old(categories) && prompts == old(prompts) && likes == old(likes)
    {
      if deviceId.None? || Membership(deviceId.value, id) !in favourites {
        return Err(NotInFavourites);
      }
      favourites := favourites - {Membership(deviceId.value, id)};
      r := Ok(true);
    }

    /**
     * `PromptDeleteView`: an unknown id is 404; otherwise the prompt goes, and with it
     * (CASCADE) every favourite and like row that refers to it.
     */
    method PromptDelete(id: PromptId) returns (r: Result<()>)
      requires Valid()
      modifies this
      ensures Valid()
      ensures old(CountersAgree()) ==> CountersAgree()
      ensures id !in PromptIds(old(prompts)) ==> r == Err(NotFound) && unchanged(this)
      ensures id in PromptIds(old(prompts)) ==>
        && r == Ok(())
        && prompts == Filter(old(prompts), OtherPrompt(id))
        && favourites == WithoutPrompts(old(favourites), {id})
        && likes == WithoutPrompts(old(likes), {id})
      ensures id !in PromptIds(prompts)
      ensures forall m :: m in favourites + likes ==> m.prompt != id
      ensures categories == old(categories)
    {
      if id !in PromptIds(prompts) {
        return Err(NotFound);
      }
      PromptDeleteKeepsTables(categories, prompts, favourites, likes, id);
      prompts := Filter(prompts, OtherPrompt(id));
      favourites := WithoutPrompts(favourites, {id});
      likes := WithoutPrompts(likes, {id});
      r := Ok(());
    }

    /**
     * `CategoryDeleteView`: an unknown id is 404; otherwise the category goes, with
     * (CASCADE) every prompt it owns and every favourite and like of those prompts.
     */
    method CategoryDelete(id: CategoryId) returns (r: Result<()>)
      requires Valid()
      modifies this
      ensures Valid()
      ensures old(CountersAgree()) ==> CountersAgree()
      ensures id !in CategoryIds(old(categories)) ==> r == Err(NotFound) && unchanged(this)
      ensures id in CategoryIds(old(categories)) ==>
        var gone := OwnedPrompts(old(prompts), id);
        && r == Ok(())
        && categories == Filter(old(categories), OtherCategory(id))
        && prompts == Filter(old(prompts), OutsideCategory(id))
        && favourites == WithoutPrompts(old(favourites), gone)
        && likes == WithoutPrompts(old(likes), gone)
      ensures id !in CategoryIds(categories)
      ensures forall p :: p in prompts ==> p.category != id
    {
      if id !in CategoryIds(categories) {
        return Err(NotFound);
      }
      CategoryDeleteKeepsTables(categories, prompts, favourites, likes, id);
      Cascade(id);
      r := Ok(());
    }

    /** The rows `CategoryDeleteView` deletes: the category, its prompts, and their favourites and likes. */
    method Cascade(id: CategoryId)
      modifies this
      ensures var gone := OwnedPrompts(old(prompts), id);
        && categories == Filter(old(categories), OtherCategory(id))
        && prompts == Filter(old(prompts), OutsideCategory(id))
        && favourites == WithoutPrompts(old(favourites), gone)
        && likes == WithoutPrompts(old(likes), gone)
    {
      var gone := OwnedPrompts(prompts, id);
      categories := Filter(categories, OtherCategory(id));
      prompts := Filter(prompts, OutsideCategory(id));
      favourites := WithoutPrompts(favourites, gone);
      likes := WithoutPrompts(likes, gone);
    }
  }
}
