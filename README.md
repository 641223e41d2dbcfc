# AI Prompt Hub: the prompt library's store, views and serializers

AI Prompt Hub is a Django REST service. It publishes a library of AI prompts grouped into
categories. Anonymous mobile clients identify themselves by a `device_id` string. With it they
can favourite prompts and like them. Each prompt counts how often its detail page was opened
(`usage_count`) and keeps a copy of its number of likes (`like_count`). Administrators create
and delete categories and prompts. Deleting a category or a prompt cascades to the rows that
depend on it.

This project models that core in Dafny:

- `models.dfy` (`Models`) holds the schema. It has a datatype per row kind and the schema's
  constraints as predicates over table contents:
  - primary keys;
  - `unique=True` on category names and slugs;
  - the foreign keys;
  - the 64-bit range of `usage_count`.

  Favourite and like rows are identified by their `unique_together` key `(device_id, prompt)`.
  Those two tables are sets of such keys, so no pair can occur twice by construction.
- `serializers.dfy` (`Serializers`) holds what `CategorySerializer` and `PromptSerializer`
  put in a response:
  - the live `prompts_count`;
  - the live `like_count`;
  - `is_liked`;
  - `category_slug` and `category_data`.
- `list_views.dfy` (`ListViews`) holds the read-only query sets as functions over the tables:
  - the prompt list with its case-insensitive search, its category filter and newest-first order;
  - the device's favourite list;
  - the category list by `order`.
- `store.dfy` (`Store`) holds the class `PromptStore`. It keeps the four tables as fields, and
  its methods are the views that write:
  - the like toggle;
  - favourite create and delete;
  - the detail fetch that bumps `usage_count`;
  - the admin create views;
  - the cascading admin deletes.

  Each view method requires and keeps `Valid()`, which is every schema constraint. So do the
  helpers `BumpUsage` and `Insert`. The helper `Cascade` only performs the deletions;
  `CategoryDelete` proves the constraints for it with `CategoryDeleteKeepsTables`. The methods
  keep `CountersAgree()`, "each stored `like_count` is the live count", whenever that held
  before. Each error path changes nothing, and each method states its whole new state.
- `seqs.dfy` (`Seqs`) and `text.dfy` (`Text`) hold the query building blocks:
  - filtering, key uniqueness and stable ordering of rows;
  - ASCII case folding and substring search.

The inputs the service gets from its environment are parameters here:

- The clock reading that `auto_now` / `auto_now_add` store is a `now: Timestamp`.
- A new row's UUID primary key is an opaque `id` chosen by the caller.
- The database is SQLite, so `icontains` folds case for ASCII letters only. `Text.LowerChar`
  is exactly that folding.
- Request parameters that may be absent are `Option<string>`. Python's truthiness test on
  them (`if not device_id`, `if search`) is `Wrappers.Supplied`: present and non-empty.
- Every error is an `Http.Error`. `Http.Status` gives the status it is answered with.

Some outcomes follow the code where a reader might expect otherwise:

- A favourite can be created with `device_id` equal to `""`. The database accepts the empty
  string. The favourite list, however, answers nothing for a falsy `device_id`.
- Creating a favourite without a `device_id`, or for a missing or unknown prompt, fails the
  insert on a NOT NULL or foreign key constraint. That is `IntegrityError`, answered with 500.
- Deleting a favourite without a `device_id` matches no row, so it is "Not in favourites" (404).
- The favourite list is serialized without a `device_id` in the serializer context. So every
  entry there reports `is_liked` false, whatever the like table holds.
- `PromptDetail` saves `usage_count + 1`. If the count already equals the largest 64-bit
  value, the save fails with an overflow (500) and nothing changes.

## Model

| member | source | states |
|---|---|---|
| Models.PromptIndex | prompts_app/views.py:122 | The lookup by primary key finds a row exactly when the id is a prompt's key, and the row it finds has that key. |
| Models.Toggled | prompts_app/views.py:123-129 | `get_or_create` followed by a delete when the row existed: the toggled pair is present afterwards exactly when it was absent before, and every other pair is as it was. |
| Models.TablesValid | prompts_app/models.py:7-57 | Every schema constraint over the four tables: unique category keys, names and slugs; unique prompt keys; each prompt's category exists; each favourite and like names an existing prompt; `usage_count` fits its 64-bit column. |
| Models.LikeCount | prompts_app/serializers.py:34 | `likes.count()`: the number of like rows of the prompt, counted live. It is 0 exactly when no like row names the prompt. |
| Models.PromptsCount | prompts_app/serializers.py:14-15 | `prompts.count()`: the number of prompts the category owns, at most the number of prompts, and 0 exactly when no prompt belongs to it. |
| Models.ToggledLikeCount | prompts_app/views.py:123-131 | A toggle changes the live like count of the toggled prompt by exactly one: down if the pair was present, up if it was absent. No other prompt's count changes. |
| Models.WithoutPromptsLikeCount | prompts_app/models.py:53 | Cascading the like rows of deleted prompts leaves the live like count of every surviving prompt unchanged. |
| Models.NewPrompt | prompts_app/models.py:24-36 | A new prompt keeps the supplied title, text, category, `image_url` and `tags`. Its `is_premium` and `usage_count` are the supplied values, or false and 0 when absent. Its `like_count` is 0 and both timestamps are the creation time. |
| Models.UsedOnce | prompts_app/views.py:70-71 | `usage_count += 1; save()` raises that row's count by exactly one, restamps `updated_at`, and leaves every other field and every other row alone. |
| Models.Recounted | prompts_app/views.py:131-132 | Storing the recomputed like count sets that row's `like_count` to it, restamps `updated_at`, and leaves every other field and every other row alone. |
| Models.PromptsCountSnoc | prompts_app/serializers.py:14-15 | A new prompt adds one to its own category's `prompts_count` and nothing to any other category's. |
| Models.CountsTotalIsPromptCount | prompts_app/models.py:30 | Every prompt has exactly one existing category, so the `prompts_count` values of all categories add up to the number of prompts. |
| Http.Status | prompts_app/views.py:111-122 | Every error is answered with 400, 404 or 500. It is 404 exactly for "not found" and "Not in favourites". |
| Serializers.CategoryById | prompts_app/serializers.py:23-24 | Following the required `category` foreign key yields a category row with that id. |
| Serializers.SerializeCategory | prompts_app/serializers.py:7-15 | The category's `id`, `name`, `slug`, `icon` and `order` are copied, and `prompts_count` is the live number of prompts owned by the category. |
| Serializers.IsLiked | prompts_app/serializers.py:46-50 | `is_liked` holds exactly when a truthy device id is supplied and that device's like row for the prompt exists; then the prompt's live like count is at least one. |
| Serializers.SerializePrompt | prompts_app/serializers.py:18-50 | `id`, `title`, `prompt_text`, `image_url`, `tags`, `is_premium`, `usage_count` and `created_at` are copied. `like_count` is the live number of like rows. `is_liked` holds exactly when a device id is supplied and its like row exists. `category_slug` is the slug in `category_data`, which is the owning category's. |
| Serializers.SerializePrompts | prompts_app/serializers.py:18-50 | The `many=True` serializer gives one view per row, in query order, each the single-row serialization. |
| Serializers.SerializeCategories | prompts_app/views.py:25 | The `many=True` category serializer gives one view per category, in query order, each the single-row serialization. |
| Serializers.StoredLikeCountNotExposed | prompts_app/serializers.py:34 | The response does not depend on the stored `like_count` column, so drift in that column is never exposed. |
| Serializers.SerializedCategoryIsOwner | prompts_app/serializers.py:23-24 | With category ids unique, `category_slug` and `category_data` are those of the category that owns the prompt. |
| Seqs.Filter | prompts_app/views.py:39-46 | A `.filter(...)` keeps exactly the rows satisfying the predicate, each as often as in the table, and never adds rows. |
| Seqs.SortBy | prompts_app/views.py:34 | `.order_by(...)` gives a permutation of its rows ordered by ascending key. |
| Seqs.FilterDistinct | prompts_app/models.py:8-10 | Deleting rows keeps every uniqueness constraint on the rows that remain. |
| Text.Lower | prompts_app/views.py:40-41 | SQLite's ASCII case folding, character by character: the folded text has the same length and each character is folded on its own. |
| Text.ContainsIgnoringCaseIffOccurrence | prompts_app/views.py:40-41 | The `icontains` test holds exactly when the folded term starts at some position of the folded text. |
| Text.ContainsIffOccurrence | prompts_app/views.py:40-41 | The substring test holds exactly when the term starts at some position of the text. |
| Text.ContainsIgnoringCaseInfix | prompts_app/views.py:40-41 | A text that has the term embedded in it, in any ASCII casing, matches the `icontains` test. |
| ListViews.PromptList | prompts_app/views.py:33-48 | The listing is ordered by `created_at` descending. It holds exactly the prompts whose title or text contains the search term ignoring case (only when a term is supplied) and whose category has the requested slug (only when a slug is supplied), each as often as in the table. |
| ListViews.PromptListUnfiltered | prompts_app/views.py:34 | Without a search term or category, the listing is a permutation of all prompts. |
| ListViews.PromptListSearchIgnoresCase | prompts_app/views.py:38-42 | Two search terms that differ only in ASCII case give the same listing. |
| ListViews.PromptListFindsTitle | prompts_app/views.py:38-42 | A prompt whose title contains the search term in any ASCII casing (a substring that lowers to the same text as the term) is listed, provided it passes the category filter. |
| ListViews.CategoryFilterMatchesSerializedSlug | prompts_app/views.py:44-46 | The category filter keeps a prompt exactly when its serialized `category_slug` is the requested slug. |
| ListViews.FavouriteList | prompts_app/views.py:88-92 | Nothing is listed without a truthy `device_id`. Otherwise the list holds exactly the prompts that device has favourited, each at most as often as in the table. |
| ListViews.FavouriteAddIsListed | prompts_app/views.py:97 | After a favourite is added for a truthy device, the prompt is on that device's favourite list. |
| ListViews.FavouriteDeleteIsUnlisted | prompts_app/views.py:107-108 | After a favourite is deleted, the prompt is not on that device's favourite list. |
| ListViews.FavouriteListResponse | prompts_app/views.py:84-92 | The i-th view is the serialization, without a device in the context, of the i-th favourited prompt, so every one reports `is_liked` false. |
| ListViews.PromptListResponse | prompts_app/views.py:50-59 | The i-th view is the serialization of the i-th listed prompt with the request's device. Each carries the live like count, and `is_liked` holds exactly when the request's device has liked it. |
| ListViews.CategoryList | prompts_app/views.py:18 | Every category appears exactly once, by ascending `order`. |
| ListViews.CategoryListResponse | prompts_app/views.py:23-26 | The i-th view is the serialization of the i-th category by ascending `order`, so the views are ordered by `order`; each has the live `prompts_count`. |
| Store.OwnedPrompts | prompts_app/models.py:30 | The rows a category's deletion cascades to are exactly the ids of the prompts it owns. |
| Store.UpdateKeepsTables | prompts_app/views.py:70-71 | Saving a row with the same key, the same category and a counter in range keeps every schema constraint and the set of prompt keys. |
| Store.UpdateKeepsCounters | prompts_app/views.py:70-71 | Saving a row without touching its like counter keeps each stored like count equal to the live count. |
| Store.ToggleKeepsCounters | prompts_app/views.py:123-132 | After the toggle and the recount of the toggled prompt, every stored like count equals the live count. |
| Store.InsertKeepsTables | prompts_app/views.py:139-143 | Appending a prompt with a fresh key, an existing category and no likes keeps every schema constraint and the counter agreement. |
| Store.PromptDeleteKeepsTables | prompts_app/models.py:44-53 | Deleting a prompt with its favourites and likes keeps every constraint and the counter agreement. |
| Store.CategoryDeleteKeepsTables | prompts_app/models.py:30 | Deleting a category with its prompts and their favourites and likes keeps every constraint and the counter agreement. No surviving prompt refers to the category. |
| Store.PromptStore.Valid | prompts_app/models.py:7-57 | The store's four tables satisfy every schema constraint (`Models.TablesValid`); every view method requires it and keeps it. |
| Store.PromptStore.constructor | prompts_app/models.py:7-57 | An empty database satisfies every constraint. |
| Store.PromptStore.CategoryCreate | prompts_app/views.py:162-165 | A taken name or slug is refused (400) and a taken key fails the insert (500), both with nothing changed. Otherwise exactly the new category row, stamped with `now` and with `order` 0 when none is supplied, is appended. |
| Store.PromptStore.PromptCreate | prompts_app/views.py:139-143 | An unknown category (400), a usage count outside the column (400) and a taken key (500) change nothing. Otherwise the new row, with the model's defaults, is appended. Its category's `prompts_count` goes up by one and its live like count is 0. |
| Store.PromptStore.PromptDetail | prompts_app/views.py:68-79 | An unknown id is 404 and an overflowing count is 500, both with nothing changed, and no other error occurs. Otherwise the fetch succeeds and only that row's `usage_count` rises by one (and `updated_at` is restamped). The response is the serialization of the saved row. |
| Store.PromptStore.Insert | prompts_app/views.py:139-143 | Exactly the new row is appended, every constraint and the counter agreement are kept, and the new prompt has no likes. |
| Store.PromptStore.BumpUsage | prompts_app/views.py:70-71 | The row's `usage_count` rises by one and every constraint and the counter agreement are kept. |
| Store.PromptStore.LikeToggle | prompts_app/views.py:117-134 | A falsy `device_id` is 400 and an unknown prompt is 404, both with nothing changed. Otherwise only the pair flips, `liked` says whether it is now present, the stored `like_count` becomes the live count, and the reply carries that count. |
| Store.PromptStore.LikeToggleTwice | prompts_app/views.py:123-134 | Two toggles of the same pair succeed together or fail together with the same error and nothing changed. On success the like table is restored, the replies disagree on `liked`, the second reports the original live count, and the prompt row carries the two recounts. |
| Store.PromptStore.FavouriteCreate | prompts_app/views.py:94-97 | A missing device or prompt fails the insert with nothing changed. Otherwise the pair is present afterwards and was created exactly when it was absent, so adding an existing favourite changes nothing. |
| Store.PromptStore.FavouriteDelete | prompts_app/views.py:103-111 | An existing pair is removed and `removed` is reported. A missing pair, or no `device_id`, is "Not in favourites" (404) with nothing changed. |
| Store.PromptStore.PromptDelete | prompts_app/views.py:154-157 | An unknown id is 404 with nothing changed. Otherwise the prompt, its favourites and its likes go, and nothing refers to it afterwards. |
| Store.PromptStore.CategoryDelete | prompts_app/views.py:175-178 | An unknown id is 404 with nothing changed. Otherwise the category goes, with every prompt it owns and every favourite and like of those prompts. |
| Store.PromptStore.Cascade | prompts_app/models.py:30 | Exactly the category, its prompts and their favourite and like rows are removed. |

## Left out

- `PromptUpdateView` and `CategoryUpdateView`: generic DRF partial or full updates whose field validation is library behaviour. The model proves only that saving a row in place keeps the constraints (`Store.UpdateKeepsTables`).
- DRF serializer validation before `perform_create`: the favourite POST goes through `PromptSerializer` validation first. This is not modelled. `FavouriteCreate` starts at `get_or_create`.
- Length limits (`max_length`), slug and URL formats, and `blank` rules of the fields: validation that belongs to the framework.
- The status and body of the create views' responses: `PromptCreate` and `CategoryCreate` return the created row rather than its serialization. `FavouriteCreate` returns whether a row was created; the view discards the `get_or_create` flag and answers 201 with the serializer's data.
- ListViews.FavouriteListResponse: returns the flat list. The favourite list view keeps the default `list()`, so under the project's `PageNumberPagination` with page size 50 the real response is a page wrapper of at most 50 rows.
- Other pagination, JWT authentication, permission classes, CORS and media storage: framework and foreign-service behaviour.
- Concurrency: races between concurrent `get_or_create` calls on the unique constraint, and the non-atomic `usage_count += 1`. The model is sequential.
- The `created_at` of favourite and like rows: no view reads it.
- Non-string JSON values for `device_id` (for example a number): the model takes the parameter as text.
- The 32-bit range of `Category.order` and the range of `like_count`: the like count never exceeds the number of like rows, and `order` comes through validation. It is modelled as an unbounded integer.
- The order among rows with equal sort keys: the database leaves it unspecified; the model's sort keeps table order.
- The order of the favourite list: the query has no `order_by`, so the database chooses it. The model lists the rows in table order.
- Management commands, URL routing, the admin pages and settings: no behaviour to model.
- Ad slots and mobile ad configuration (activation, rotation): no model or view for them exists in the repository's sources. They are not part of this model.
