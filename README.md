# LegibleSync, modelled in Dafny

LegibleSync is a reactive engine built on "concepts" and "synchronizations".

- A **concept** is a small, self-contained state machine. The engine calls it through `execute(action, input)`.
- A **sync rule** says: *when* these actions have happened (patterns over the records' input and output), *where* a filter holds, *then* invoke these actions (with `?variable` substitution).

This project models the following parts:

- **The engine** (`LegibleEngine`, module `Engine`), as a class over the same fields:
  - the append-only ledger of action records and its `concept:action` index;
  - the per-cascade fingerprint set and fired-rule set;
  - the rule dependency graph and its depth-first cycle check;
  - `invoke`, the rule scan (`triggerSyncs`/`tryFireSync`), `getActionsByFlow`, `clearFlow` and `reset`.
- **The engine's pure helpers**, stated as functions with their properties proved:
  - pattern matching (`matchRecord`, `matchPath`), in module `Matching`;
  - the cartesian product of bindings, `getNestedValue` and `replaceVariables`, in module `Bindings`.
  - `Json` holds the JSON-like values these work on, with ordered objects.
- **The sync-DSL parser** (`SyncParser`, module `Parser`): a class with a cursor `pos`. Each reader method is proved against a function that says what it consumes and what it builds.
- **The example concepts**, each as a store class over the source's maps and sets, with one method per action and a `Dispatch` that selects the action by name:
  - the event-driven shop: `Order`, `Payment`, `Inventory`, `Product`, `EdaUser`, `Analytics` and `Notification`, plus its `EventBus` and `PluginManager`;
  - the console example: `ConsoleUser`, `ConsoleComment` and `Persistence`;
  - the express example: `Article` (with `slugify`), `Favorite` and `ExpressComment`;
  - the Next.js example: `NextComment`.
- **The flow audit summary** of the express example (module `Audit`).

A concept's `execute` reaches the engine as an oracle: a function value from (state, action, input) to a new state and a value or an error. The engine's contracts hold for every such oracle. The engine also keeps a ghost log, `returned`, of whether each invoke returned or threw. The source holds this fact only in tryFireSync's local `fired` flag. With the log, the rule scan's contracts can say that a rule joins the fired set exactly when one of its invocations returned. The concept modules then show that the concepts themselves behave as their source does.

Source paths below are relative to the repository root.

## Model

| member | source | states |
|---|---|---|
| Order.Dispatch | packages/example-eda/src/plugins/orders/concepts/Order.ts:14-116 | a known action name selects its branch; any other name fails with "Unknown action: " and the name |
| Order.CheckItems | packages/example-eda/src/plugins/orders/concepts/Order.ts:24-28 | the item loop accepts exactly when every item has a product id and a positive quantity |
| Order.OrderStore.Create | packages/example-eda/src/plugins/orders/concepts/Order.ts:15-49 | rejects a missing user or empty item list, then any bad item, leaving the store unchanged; otherwise stores a pending order with total 0 under the fresh id and mirrors its items |
| Order.OrderStore.Confirm | packages/example-eda/src/plugins/orders/concepts/Order.ts:51-68 | fails for an unknown order or one not pending; otherwise the order becomes confirmed with the given total and time, all else unchanged |
| Order.OrderStore.Cancel | packages/example-eda/src/plugins/orders/concepts/Order.ts:70-82 | fails only for an unknown order; any existing order becomes cancelled whatever its status |
| Order.OrderStore.Ship | packages/example-eda/src/plugins/orders/concepts/Order.ts:84-101 | fails for an unknown order or one not confirmed; otherwise the order becomes shipped with the tracking number and time |
| Order.OrderStore.Get | packages/example-eda/src/plugins/orders/concepts/Order.ts:103-112 | finds exactly the stored orders; the items come from the item map, so in a valid store the result is the stored order |
| Order.ShippedWasConfirmed | packages/example-eda/src/plugins/orders/concepts/Order.ts:58-60 | along any run of actions from pending, an order that ends shipped was confirmed on the way |
| Order.CancelledIsFinal | packages/example-eda/src/plugins/orders/concepts/Order.ts:70-82 | once cancelled, every later run of actions is refused or leaves the order cancelled |
| Payment.Dispatch | packages/example-eda/src/plugins/payments/concepts/Payment.ts:14-184 | a known action name selects its branch; any other name fails with "Unknown action: " and the name |
| Payment.PaymentStore.Initiate | packages/example-eda/src/plugins/payments/concepts/Payment.ts:15-38 | rejects a missing order id or a non-positive amount; otherwise stores a pending payment, defaulting the method to credit_card |
| Payment.PaymentStore.Process | packages/example-eda/src/plugins/payments/concepts/Payment.ts:40-69 | fails for an unknown or non-pending payment; otherwise adds a processing charge transaction for the payment's amount and moves the payment to processing |
| Payment.PaymentStore.Confirm | packages/example-eda/src/plugins/payments/concepts/Payment.ts:71-95 | fails when the payment or the transaction is missing or the payment is not processing; otherwise both become completed |
| Payment.PaymentStore.FailTransactions | packages/example-eda/src/plugins/payments/concepts/Payment.ts:109-117 | the loop turns exactly the payment's processing transactions into failed ones carrying the reason |
| Payment.PaymentStore.Fail | packages/example-eda/src/plugins/payments/concepts/Payment.ts:97-120 | fails only for an unknown payment; otherwise it becomes failed with the reason, in every prior status |
| Payment.PaymentStore.Refund | packages/example-eda/src/plugins/payments/concepts/Payment.ts:122-158 | fails for an unknown payment, one not completed, or a refund above the amount; otherwise records a refund transaction and moves to refunded or partially refunded |
| Payment.PaymentStore.View | packages/example-eda/src/plugins/payments/concepts/Payment.ts:167-168 | the payment with each transaction id replaced by its record, position by position |
| Payment.PaymentStore.Get | packages/example-eda/src/plugins/payments/concepts/Payment.ts:160-169 | finds exactly the stored payments; in a valid store every listed transaction exists |
| Payment.PaymentStore.GetByOrderId | packages/example-eda/src/plugins/payments/concepts/Payment.ts:171-180 | fails exactly when no payment has the order; otherwise returns the first such payment in insertion order |
| Payment.RefundAtMostOnce | packages/example-eda/src/plugins/payments/concepts/Payment.ts:129-131 | along any accepted run a payment is refunded at most once, and never again once refunded |
| Payment.RefundsAfterFail | packages/example-eda/src/plugins/payments/concepts/Payment.ts:97-131 | a failed payment accepts no refund afterwards |
| Payment.RefundNeedsConfirm | packages/example-eda/src/plugins/payments/concepts/Payment.ts:80-85 | a payment that ends refunded from pending, processing or failed was confirmed on the way |
| Inventory.Dispatch | packages/example-eda/src/plugins/inventory/concepts/Inventory.ts:13-82 | a known action name selects its branch; any other name fails with "Unknown action: " and the name |
| Inventory.Shortages | packages/example-eda/src/plugins/inventory/concepts/Inventory.ts:31-47 | the shortage list is never longer than the item list |
| Inventory.ShortagesSpec | packages/example-eda/src/plugins/inventory/concepts/Inventory.ts:37-49 | no shortage is reported exactly when every item's quantity is covered by its stock (absent stock is 0), and every reported shortage is a real one of some item |
| Inventory.DeductKeepsNonNegative | packages/example-eda/src/plugins/inventory/concepts/Inventory.ts:56-64 | deduction never drives a stock level below zero |
| Inventory.AvailableDeducts | packages/example-eda/src/plugins/inventory/concepts/Inventory.ts:25-64 | with each product named once, items that pass the availability check are deducted without error |
| Inventory.RepeatedProductPassesCheck | packages/example-eda/src/plugins/inventory/concepts/Inventory.ts:31-44 | the check compares each item alone with the stock, so a product repeated beyond its stock passes the check and then stops the deduction |
| Inventory.InventoryStore.SetStock | packages/example-eda/src/plugins/inventory/concepts/Inventory.ts:14-23 | rejects a missing product or a negative quantity, store unchanged; otherwise sets that product's level |
| Inventory.InventoryStore.CheckAvailability | packages/example-eda/src/plugins/inventory/concepts/Inventory.ts:25-51 | available exactly when every item is covered; lists the shortages in item order and sums quantity times price; changes nothing |
| Inventory.InventoryStore.Deduct | packages/example-eda/src/plugins/inventory/concepts/Inventory.ts:53-67 | takes the items from stock in turn; the first item short of stock fails naming its product, with the earlier deductions kept |
| Inventory.InventoryStore.GetStock | packages/example-eda/src/plugins/inventory/concepts/Inventory.ts:69-73 | the product's level, 0 when it has none |
| Inventory.InventoryStore.Reset | packages/example-eda/src/plugins/inventory/concepts/Inventory.ts:75-78 | clears every level |
| Product.Dispatch | packages/example-eda/src/plugins/products/concepts/Product.ts:14-94 | a known action name selects its branch; any other name fails with "Unknown action: " and the name |
| Product.NewProduct | packages/example-eda/src/plugins/products/concepts/Product.ts:29-38 | the stored product has its eight fields, each key once |
| Product.NewProductFields | packages/example-eda/src/plugins/products/concepts/Product.ts:29-38 | a new product carries its SKU and description, is active, and falls in the general category when none is given |
| Product.ProductStore.Create | packages/example-eda/src/plugins/products/concepts/Product.ts:15-44 | rejects a missing name, SKU or price, then a SKU already handed out, store unchanged; otherwise stores the product and registers its SKU |
| Product.ProductStore.GetProduct | packages/example-eda/src/plugins/products/concepts/Product.ts:46-53 | the stored product, or "Product not found" exactly when there is none |
| Product.ProductStore.UpdateProduct | packages/example-eda/src/plugins/products/concepts/Product.ts:55-67 | fails only for an unknown product; every key but updatedAt then reads from the updates where they have it and from the old product elsewhere |
| Product.ProductStore.DeactivateProduct | packages/example-eda/src/plugins/products/concepts/Product.ts:69-81 | fails only for an unknown product; otherwise the product reads as inactive with a deactivation time |
| Product.ProductStore.ListProducts | packages/example-eda/src/plugins/products/concepts/Product.ts:83-90 | the listed products are stored products; each has the status (active by default) and the category when one is given, and every stored product that does is listed |
| Product.ProductStore.FilterListed | packages/example-eda/src/plugins/products/concepts/Product.ts:85-87 | the filter keeps exactly those of the given ids' products that pass both tests, and returns nothing else |
| Product.ProductStore.FilterListedAppend | packages/example-eda/src/plugins/products/concepts/Product.ts:85-87 | filtering two id lists one after the other is filtering each and concatenating, so the listing follows insertion order |
| Product.ProductStore.FilterListedOne | packages/example-eda/src/plugins/products/concepts/Product.ts:85-87 | a single id yields its product exactly when the product passes both tests |
| EdaUser.Dispatch | packages/example-eda/src/plugins/users/concepts/User.ts:15-95 | a known action name selects its branch; any other name fails with "Unknown action: " and the name |
| EdaUser.NewUser | packages/example-eda/src/plugins/users/concepts/User.ts:34-40 | the stored user has its five fields, each key once, and no password |
| EdaUser.NewUserFields | packages/example-eda/src/plugins/users/concepts/User.ts:34-40 | a registered user is active and carries the username and e-mail given |
| EdaUser.UserStore.Register | packages/example-eda/src/plugins/users/concepts/User.ts:16-47 | rejects a missing field, then a taken e-mail, then a taken username, store unchanged; otherwise stores the user and registers both names |
| EdaUser.UserStore.GetUser | packages/example-eda/src/plugins/users/concepts/User.ts:49-56 | the stored user, or "User not found" exactly when there is none |
| EdaUser.UserStore.UpdateUser | packages/example-eda/src/plugins/users/concepts/User.ts:58-70 | fails only for an unknown user; every key but updatedAt then reads from the updates where they have it and from the old user elsewhere |
| EdaUser.UserStore.DeactivateUser | packages/example-eda/src/plugins/users/concepts/User.ts:72-84 | fails only for an unknown user; otherwise the user reads as inactive with a deactivation time |
| EdaUser.UserStore.Reset | packages/example-eda/src/plugins/users/concepts/User.ts:86-91 | clears the users and both name sets |
| Analytics.Dispatch | packages/example-eda/src/plugins/analytics/concepts/Analytics.ts:13-57 | a known action name selects its branch; any other name fails with "Unknown action: " and the name |
| Analytics.Slice | packages/example-eda/src/plugins/analytics/concepts/Analytics.ts:46 | a slice is never longer than the list and is always a suffix of it |
| Analytics.SliceLast | packages/example-eda/src/plugins/analytics/concepts/Analytics.ts:44-46 | slicing from minus the limit keeps the last limit records for a positive limit, all of them for 0, and drops the first records for a negative one |
| Analytics.TrackCounted | packages/example-eda/src/plugins/analytics/concepts/Analytics.ts:14-36 | one track keeps exactly one counter per tracked event, each equal to its list's length |
| Analytics.TrackedKeys | packages/example-eda/src/plugins/analytics/concepts/Analytics.ts:17-31 | after a track the counters' names are exactly the tracked events |
| Analytics.TrackedCounts | packages/example-eda/src/plugins/analytics/concepts/Analytics.ts:27-31 | after a track every counter equals the length of its event's list |
| Analytics.AnalyticsStore.Track | packages/example-eda/src/plugins/analytics/concepts/Analytics.ts:14-36 | appends the record with its timestamp and id to the event's list, bumps the event's counter, keeps the counters in step, and returns the id |
| Analytics.AnalyticsStore.GetMetrics | packages/example-eda/src/plugins/analytics/concepts/Analytics.ts:38-41 | the counters name exactly the tracked events, each with its list's length |
| Analytics.AnalyticsStore.GetEvents | packages/example-eda/src/plugins/analytics/concepts/Analytics.ts:43-47 | the slice of the event's list for the limit, 10 by default; nothing for an event never tracked |
| Analytics.AnalyticsStore.Reset | packages/example-eda/src/plugins/analytics/concepts/Analytics.ts:49-53 | clears the lists and the counters |
| Notification.Dispatch | packages/example-eda/src/plugins/notifications/concepts/Notification.ts:12-52 | a known action name selects its branch; any other name fails with "Unknown action: " and the name |
| Notification.NotificationStore.Send | packages/example-eda/src/plugins/notifications/concepts/Notification.ts:13-37 | appends one sent notification to the recipient's history and touches no other recipient; an absent type then fails the call with the notification already stored |
| Notification.NotificationStore.GetHistory | packages/example-eda/src/plugins/notifications/concepts/Notification.ts:39-43 | the recipient's history, empty for one never sent to |
| Notification.NotificationStore.Reset | packages/example-eda/src/plugins/notifications/concepts/Notification.ts:45-48 | clears every history |
| Notification.SendTwice | packages/example-eda/src/plugins/notifications/concepts/Notification.ts:29-32 | two sends to one recipient end its history with both notifications, in send order |
| EventBus.Stamp | packages/example-eda/src/core/EventBus.ts:28-31 | the published event keeps every field of the draft and gains the timestamp |
| EventBus.Subscribed | packages/example-eda/src/core/EventBus.ts:20-25 | the handler goes last in its type's list; every other type's list is unchanged |
| EventBus.Deliveries | packages/example-eda/src/core/EventBus.ts:36-42 | one call per subscribed handler, in subscription order, each with the stamped event; a throwing handler does not stop the loop |
| EventBus.SubscribeTwice | packages/example-eda/src/core/EventBus.ts:20-42 | a handler subscribed twice is called twice by one publish |
| EventBus.CreateEventFromAction | packages/example-eda/src/core/EventBus.ts:46-54 | the type is the concept and the action joined by a dot, the payload holds exactly the input and the output, and the source is the concept |
| EventBus.EventKindSplits | packages/example-eda/src/core/EventBus.ts:48 | when neither name holds a dot, the event type splits back into the concept and the action |
| EventBus.Bus.Subscribe | packages/example-eda/src/core/EventBus.ts:20-25 | the subscription table becomes the table with the handler appended to its type |
| EventBus.Bus.Publish | packages/example-eda/src/core/EventBus.ts:27-43 | the calls are exactly the deliveries of the stamped event to the type's handlers; none for a type nobody subscribed to; the subscriptions are unchanged |
| Plugins.RegisteredNames | packages/example-eda/src/core/PluginManager.ts:23-26 | after registering a plugin's concepts the engine knows exactly its earlier names and the names registered |
| Plugins.RegisteredKeeps | packages/example-eda/src/core/PluginManager.ts:23-26 | a concept name the plugin does not register keeps its earlier concept |
| Plugins.RegisteredLast | packages/example-eda/src/core/PluginManager.ts:23-26 | a name registered more than once ends with the concept of its last entry |
| Plugins.PluginManager.LoadPlugin | packages/example-eda/src/core/PluginManager.ts:19-42 | registers every concept and then every sync rule on the engine; a failing initialisation fails the load with them registered and the plugin unrecorded; otherwise the plugin is recorded under its name, a reload keeping its place |
| Plugins.PluginManager.RegisterConcepts | packages/example-eda/src/core/PluginManager.ts:23-26 | the concept loop leaves the engine's concepts as the registration of the entries in order, and nothing else changed |
| Plugins.PluginManager.RegisterSyncs | packages/example-eda/src/core/PluginManager.ts:29-32 | the sync loop appends the plugin's rules to the engine's rules in order, and nothing else changed |
| Plugins.PluginManager.GetLoadedPlugins | packages/example-eda/src/core/PluginManager.ts:44-46 | the names of exactly the loaded plugins, each once, in first-load order |
| Plugins.PluginManager.GetPlugin | packages/example-eda/src/core/PluginManager.ts:48-50 | the plugin loaded under the name, or nothing exactly when there is none |
| ConsoleUser.Dispatch | packages/example-console/src/concepts/User.ts:14-38 | the two known action names select their branch; any other name fails with "Unknown action: " and the name |
| ConsoleUser.RegisterError | packages/example-console/src/concepts/User.ts:16-20 | registration passes exactly when the username is not blank, the e-mail holds an @, and the id, username and e-mail are all unused |
| ConsoleUser.RegisterKeepsConsistent | packages/example-console/src/concepts/User.ts:18-24 | a registration past the checks keeps one username and one e-mail per user and no username or e-mail shared by two users |
| ConsoleUser.UserStore.Register | packages/example-console/src/concepts/User.ts:14-26 | the first failing check is reported with the store unchanged; otherwise the user is added with its username and e-mail, keeping both unique |
| ConsoleUser.UserStore.GetByUsername | packages/example-console/src/concepts/User.ts:28-36 | fails exactly when no user has the username; otherwise the first such user in registration order, with its e-mail |
| ConsoleUser.UsernameTakenTwice | packages/example-console/src/concepts/User.ts:19 | a second registration with a username already in use is refused as taken |
| ConsoleComment.Dispatch | packages/example-console/src/concepts/Comment.ts:16-66 | the three known action names select their branch; any other name fails with "Unknown action: " and the name |
| ConsoleComment.CommentStore.OnArticle | packages/example-console/src/concepts/Comment.ts:54-62 | the list holds only comments on the article and holds every comment on it among the ids given |
| ConsoleComment.CommentStore.Create | packages/example-console/src/concepts/Comment.ts:16-35 | refuses an empty content with the store unchanged; otherwise records the comment's four properties under the fresh id |
| ConsoleComment.CommentStore.Get | packages/example-console/src/concepts/Comment.ts:37-49 | fails exactly for an unknown comment; otherwise its article, author, content and creation time |
| ConsoleComment.CommentStore.ListByArticle | packages/example-console/src/concepts/Comment.ts:51-64 | the loop returns the article's comments in creation order |
| ConsoleComment.CommentStore.OnArticleStep | packages/example-console/src/concepts/Comment.ts:54-62 | one more comment id adds at most its own comment, at the end of the list |
| ConsoleComment.CreatedIsListed | packages/example-console/src/concepts/Comment.ts:16-64 | a comment just created shows up last in its article's list, and other articles' lists are unchanged |
| Persistence.Dispatch | packages/example-console/src/concepts/Persistence.ts:12-30 | the two known action names select their branch; any other name fails with "Unknown action: " and the name |
| Persistence.IncludesEmpty | packages/example-console/src/concepts/Persistence.ts:22-23 | every string includes the empty string, so a missing query field rules nothing out |
| Persistence.Filter | packages/example-console/src/concepts/Persistence.ts:18-26 | the query answer holds exactly the stored triples whose subject and predicate include the query's fields, and is no longer than the store |
| Persistence.FilterEverything | packages/example-console/src/concepts/Persistence.ts:21-24 | a query with both fields missing returns every triple in stored order |
| Persistence.FilterAppend | packages/example-console/src/concepts/Persistence.ts:12-24 | storing a triple appends it to the answer of every query that selects it and changes no other answer |
| Persistence.TripleStore.Store | packages/example-console/src/concepts/Persistence.ts:12-16 | the triple is appended to the store and the call reports it stored |
| Article.Dispatch | packages/example-express/src/concepts/Article.ts:21-37 | the one known action name selects its branch; any other name fails with "Unknown action: " and the name |
| Article.Lower | packages/example-express/src/concepts/Article.ts:6 | lower-casing keeps the length and maps each character on its own |
| Article.SkipSpaces | packages/example-express/src/concepts/Article.ts:6 | what is left after a run of whitespace does not start with whitespace |
| Article.Dash | packages/example-express/src/concepts/Article.ts:6 | after each run of whitespace becomes a dash, no whitespace is left |
| Article.Keep | packages/example-express/src/concepts/Article.ts:6 | dropping the characters outside a-z, 0-9 and the dash never lengthens the string |
| Article.KeepChars | packages/example-express/src/concepts/Article.ts:6 | what the last replacement keeps is made only of a-z, 0-9 and dashes |
| Article.SlugChars | packages/example-express/src/concepts/Article.ts:5-7 | every slug is made only of lower-case ASCII letters, digits and dashes |
| Article.LowerSlug | packages/example-express/src/concepts/Article.ts:6 | lower-casing leaves a slug as it is |
| Article.DashSlug | packages/example-express/src/concepts/Article.ts:6 | replacing whitespace leaves a slug as it is |
| Article.KeepSlug | packages/example-express/src/concepts/Article.ts:6 | dropping non-slug characters leaves a slug as it is |
| Article.SlugifyIdempotent | packages/example-express/src/concepts/Article.ts:5-7 | slugifying a slug gives it back |
| Article.ArticleStore.Create | packages/example-express/src/concepts/Article.ts:21-35 | refuses an empty title, then a slug already in use, store unchanged; otherwise stores the four properties and the slug under the id, keeping slugs unique |
| Article.SlugAsTitle | packages/example-express/src/concepts/Article.ts:25-26 | after an article is created, a second one titled with its slug is refused |
| Favorite.Dispatch | packages/example-express/src/concepts/Favorite.ts:12-29 | the two known action names select their branch; any other name fails with "Unknown action: " and the name |
| Favorite.Added | packages/example-express/src/concepts/Favorite.ts:12-19 | after add the user favorites the article, the article's other favoriters are as before, and every other article is untouched |
| Favorite.Removed | packages/example-express/src/concepts/Favorite.ts:21-27 | after remove the user no longer favorites the article, nobody else is affected, and an unknown article is left alone |
| Favorite.AddIdempotent | packages/example-express/src/concepts/Favorite.ts:14-17 | adding a favorite twice is adding it once |
| Favorite.RemoveUndoesAdd | packages/example-express/src/concepts/Favorite.ts:12-27 | removing a favorite just added, for a user not there before, restores the table |
| Favorite.FavoriteStore.Add | packages/example-express/src/concepts/Favorite.ts:12-19 | the table becomes the table with the favorite added, and the answer is the article |
| Favorite.FavoriteStore.Remove | packages/example-express/src/concepts/Favorite.ts:21-27 | the table becomes the table with the favorite removed; it never fails, and the answer is the article |
| ExpressComment.Dispatch | packages/example-express/src/concepts/Comment.ts:16-29 | the one known action name selects its branch; any other name fails with "Unknown action: " and the name |
| ExpressComment.CommentStore.Create | packages/example-express/src/concepts/Comment.ts:16-27 | refuses an empty body with the store unchanged; otherwise stores the four properties under the given id, replacing an earlier comment with that id |
| ExpressComment.CreateThenRead | packages/example-express/src/concepts/Comment.ts:20-24 | after a create the comment's body reads back as given and every other comment's body is untouched |
| NextComment.Dispatch | packages/example-nextjs-sse/src/concepts/Comment.ts:15-30 | the one known action name selects its branch; any other name fails with "Unknown action: " and the name |
| NextComment.CommentStore.Create | packages/example-nextjs-sse/src/concepts/Comment.ts:15-28 | refuses a missing name or text with the store unchanged; otherwise adds exactly one comment with the fresh id, the time, the name and the text |
| Audit.Concepts | packages/example-express/src/utils/audit.ts:40 | the concept of each record, position by position |
| Audit.FirstIndex | packages/example-express/src/utils/audit.ts:40 | the position of the first occurrence of a concept |
| Audit.Dedup | packages/example-express/src/utils/audit.ts:40 | the distinct concepts hold exactly the concepts that occur, each once |
| Audit.FirstIndexPrefix | packages/example-express/src/utils/audit.ts:40 | a first occurrence in a prefix is still the first one after an element is appended |
| Audit.DedupOrder | packages/example-express/src/utils/audit.ts:40 | the distinct concepts come in order of first appearance, as a Set iterates |
| Audit.OrderedKept | packages/example-express/src/utils/audit.ts:40 | appending a concept already seen keeps the first-appearance order |
| Audit.OrderedSnoc | packages/example-express/src/utils/audit.ts:40 | a concept seen for the first time goes after all earlier ones |
| Audit.FailedCount | packages/example-express/src/utils/audit.ts:41 | never more failures than records |
| Audit.FailedCountZero | packages/example-express/src/utils/audit.ts:41 | no failure is counted exactly when no record's output has a truthy error |
| Audit.RoundCentsBounds | packages/example-express/src/utils/audit.ts:47 | rounding to two decimals keeps a percentage between 0 and 100 and keeps 0 and 100 exact |
| Audit.Rate | packages/example-express/src/utils/audit.ts:42 | the rate is a percentage; for a non-empty flow it is 100 exactly when nothing failed and 0 exactly when everything failed; an empty flow rates 0 |
| Audit.Summarize | packages/example-express/src/utils/audit.ts:32-49 | the summary counts the flow's records, lists its concepts once each in first-appearance order, and gives a rounded rate between 0 and 100 that is 100 when nothing failed and 0 when everything failed |
| Audit.Occurrences | packages/example-express/src/utils/audit.ts:20-23 | a concept occurs no more often than there are records |
| Audit.TallyCounts | packages/example-express/src/utils/audit.ts:20-23 | the tally has an entry exactly for each concept that occurs, holding its number of records |
| Audit.OccurrencesAbsent | packages/example-express/src/utils/audit.ts:20-23 | a concept that does not occur is counted zero times |
| Audit.SumOccurrencesAppend | packages/example-express/src/utils/audit.ts:20-23 | one more record adds one to the sum over distinct concepts exactly when its concept is among them |
| Audit.SumOccurrencesSnoc | packages/example-express/src/utils/audit.ts:20-23 | one more concept in the sum adds its own count |
| Audit.TallySum | packages/example-express/src/utils/audit.ts:20-28 | the per-concept counts, taken over the distinct concepts, add up to the number of records |
| Audit.ConceptStats | packages/example-express/src/utils/audit.ts:20-23 | the audit's statistics have an entry exactly for each concept of the flow, holding its number of records |
| Json.Keys | packages/core/src/engine/Engine.ts:276 | an object's keys, in insertion order |
| Json.Get | packages/core/src/engine/Engine.ts:321 | a property is present exactly when its key is among the object's keys, with its stored value |
| Json.PutGet | packages/core/src/engine/Engine.ts:341-342 | after writing a property it reads back the value written, and every other property reads as before |
| Json.PutKeys | packages/core/src/engine/Engine.ts:341-342 | writing an existing property keeps the key order; a new one is appended |
| Json.PutUnique | packages/core/src/engine/Engine.ts:341-342 | writing a property never repeats a key |
| Json.GetAt | packages/core/src/engine/Engine.ts:321 | in an object without repeated keys a property reads as the value at its position |
| Json.MergeGet | packages/core/src/engine/Engine.ts:207-210 | spreading one object over another: the second's properties win and the rest come from the first |
| Json.MergeUnique | packages/core/src/engine/Engine.ts:302 | spreading objects never repeats a key |
| Json.IndexFields | packages/core/src/engine/Engine.ts:276 | an array enumerates its indices, as decimal keys, with its elements |
| Json.AsObject | packages/core/src/engine/Engine.ts:203-206 | the own properties of an object are its fields, and a primitive has none |
| Json.NatToString | packages/core/src/engine/Engine.ts:335 | a decimal representation is non-empty and all digits |
| Json.DigitsOfNat | packages/core/src/engine/Engine.ts:317 | parsing the decimal representation of a number gives the number back |
| Json.Split | packages/core/src/engine/Engine.ts:308 | splitting always gives at least one piece |
| Json.JoinSplit | packages/core/src/engine/Engine.ts:308 | re-joining the pieces of a split gives back the string |
| Json.SplitPieces | packages/core/src/engine/Engine.ts:308 | no piece of a split contains the separator |
| Matching.LiteralPathMatchesItself | packages/core/src/engine/Engine.ts:290-298 | a path pattern without a star matches exactly the identical path |
| Matching.CountSplit | packages/core/src/engine/Engine.ts:290-298 | counting separators distributes over a split of the string |
| Matching.CountAbsent | packages/core/src/engine/Engine.ts:290-298 | a character that does not occur is counted zero times |
| Matching.MatchPathKeepsDepth | packages/core/src/engine/Engine.ts:292-293 | a star never crosses a slash: a path and the pattern it matches have the same number of slashes |
| Matching.StarMatchesOneSegment | packages/core/src/engine/Engine.ts:293 | a lone star matches exactly the non-empty strings without a slash |
| Matching.LiteralRecordMatch | packages/core/src/engine/Engine.ts:275-288 | a sub-pattern without a path key or variables matches exactly when every key is present with an equal primitive value |
| Matching.VariableMatchesPresence | packages/core/src/engine/Engine.ts:280-282 | a variable entry is satisfied by any value under its key and fails when the key is absent |
| Matching.MatchRecordAppend | packages/core/src/engine/Engine.ts:276-287 | matching a concatenation of sub-patterns is matching both |
| Bindings.RecordBindingsGet | packages/core/src/engine/Engine.ts:201-212 | in a record's bindings the output's properties win over the input's, and a key of neither is absent |
| Bindings.RecordBindingsNoOutput | packages/core/src/engine/Engine.ts:203-206 | a record without an output binds exactly its input |
| Bindings.EachWith | packages/core/src/engine/Engine.ts:302 | mapping combines the accumulated element with each new element, position by position |
| Bindings.FlatWithSize | packages/core/src/engine/Engine.ts:302 | one step of the product has as many combinations as the product of the two lengths |
| Bindings.ProductSize | packages/core/src/engine/Engine.ts:300-305 | the product has as many combinations as the product of the list lengths |
| Bindings.ProductOfNothing | packages/core/src/engine/Engine.ts:303 | the product of no lists is the single empty binding |
| Bindings.SizeProductZero | packages/core/src/engine/Engine.ts:300-305 | the product is empty exactly when one of the lists is empty |
| Bindings.MulIsTimes | packages/core/src/engine/Engine.ts:302 | the repeated-addition product is multiplication |
| Bindings.FlatWithAt | packages/core/src/engine/Engine.ts:302 | the combination of the i-th accumulated and the j-th new element sits at i times the length plus j |
| Bindings.FlatWithAppend | packages/core/src/engine/Engine.ts:302 | flatMap distributes over concatenation |
| Bindings.FlatWithSizeMul | packages/core/src/engine/Engine.ts:302 | the length of one step, as a repeated-addition product |
| Bindings.FlatWithInv | packages/core/src/engine/Engine.ts:302 | every combination of one step combines some accumulated element with some new one |
| Bindings.RankBound | packages/core/src/engine/Engine.ts:300-305 | the position of a choice lies inside the product |
| Bindings.ProductAt | packages/core/src/engine/Engine.ts:300-305 | every choice of one element per list appears in the product, at its rank, merged left to right so later lists win |
| Bindings.ProductOnlyChoices | packages/core/src/engine/Engine.ts:300-305 | the product holds nothing else: each combination is the merge of one choice |
| Bindings.FilterSeq | packages/core/src/engine/Engine.ts:218-220 | the where filter never lengthens the combinations |
| Bindings.FilterSeqMembers | packages/core/src/engine/Engine.ts:218-220 | the filter keeps exactly the combinations that pass it |
| Bindings.RunEnd | packages/core/src/engine/Engine.ts:311 | the run of word characters or digits starting at a position, and nothing past it |
| Bindings.WalkUndefined | packages/core/src/engine/Engine.ts:321 | once the walk reaches undefined it stays undefined |
| Bindings.GetNestedSimple | packages/core/src/engine/Engine.ts:307-323 | a path without dots is a single property read of the bindings |
| Json.SplitNoSep | packages/core/src/engine/Engine.ts:308 | a string without the separator, such as a path without dots, splits to itself |
| Bindings.GetNestedDotted | packages/core/src/engine/Engine.ts:307-323 | a dotted path descends one nested object per segment |
| Json.SplitPrefix | packages/core/src/engine/Engine.ts:308 | a string split at its first separator, such as a path at its first dot, starts with its first segment |
| Bindings.IndexedSegmentExample | packages/core/src/engine/Engine.ts:311-313 | the segment "path[2]" matches as the word path and the index 2 |
| Bindings.IndexedSegmentOnString | packages/core/src/engine/Engine.ts:310-318 | on a string value, path[2] picks the third slash-separated piece, and is undefined past the last piece |
| Bindings.PathEnd | packages/core/src/engine/Engine.ts:333 | a variable reference runs over the longest stretch of word characters and dots |
| Bindings.Replace | packages/core/src/engine/Engine.ts:325-348 | substitution keeps an array's length and an object's keys, leaves other non-strings alone, and turns a string not starting with ? into a string |
| Bindings.ReplaceItems | packages/core/src/engine/Engine.ts:337-338 | each array element is substituted on its own, in place |
| Bindings.ReplaceFields | packages/core/src/engine/Engine.ts:339-344 | each property keeps its key and gets its value substituted |
| Bindings.InterpolatePlain | packages/core/src/engine/Engine.ts:331-336 | a string without ? is left exactly as it is |
| Bindings.InterpolateUnbound | packages/core/src/engine/Engine.ts:331-336 | with no bindings every reference is unresolved, so the string is unchanged |
| Bindings.GetNestedUnbound | packages/core/src/engine/Engine.ts:307-323 | no path reaches a value in empty bindings |
| Bindings.ReplaceUnbound | packages/core/src/engine/Engine.ts:325-348 | with no bindings substitution leaves every value unchanged |
| Bindings.ReplaceWholeReference | packages/core/src/engine/Engine.ts:326-330 | a whole-string reference ?name becomes the raw value bound to name, not its string form |
| Bindings.ReplaceNestedReference | packages/core/src/engine/Engine.ts:326-330 | a whole-string reference with a dotted path becomes the nested value it reaches |
| Bindings.ReplaceReference | packages/core/src/engine/Engine.ts:326-330 | a whole-string reference becomes the value its path reaches whenever it reaches one |
| Engine.ActionRecord.constructor | packages/core/src/engine/Engine.ts:122-130 | a new record carries its id, concept, action, input, flow, trigger flag and the output it is given |
| Engine.WithKeyMembers | packages/core/src/engine/Engine.ts:134-138 | a record is in a key's list exactly when it is in the ledger with that concept and action |
| Engine.IndexOfSpec | packages/core/src/engine/Engine.ts:133-138 | the index has a key exactly when some record has it, and its list is the ledger filtered by that key, in order |
| Engine.IndexedRecordsInLedger | packages/core/src/engine/Engine.ts:133-138 | every indexed record is in the ledger under its own key |
| Engine.IndexKeyCollision | packages/core/src/engine/Engine.ts:134 | the index key is a plain concatenation, so concept a:b with action c and concept a with action b:c share one list |
| Engine.IdsBelowSpec | packages/core/src/engine/Engine.ts:121 | record ids increase along the ledger and stay below the next fresh one |
| Engine.DistinctSpec | packages/core/src/engine/Engine.ts:144-151 | the executed fingerprints of a cascade are pairwise distinct |
| Engine.StoredOutput | packages/core/src/engine/Engine.ts:155-156 | what is stored as a record's output is always an object |
| Engine.StoredOutputSpec | packages/core/src/engine/Engine.ts:155-162 | an object result is stored as it is, any other result under result, and a failure's message under error |
| Engine.ByFlowSpec | packages/core/src/engine/Engine.ts:355-357 | the flow view holds exactly that flow's records, in ledger order |
| Engine.WithoutFlowSpec | packages/core/src/engine/Engine.ts:363-365 | clearing a flow keeps exactly the other flows' records, in ledger order |
| Engine.FlowPartition | packages/core/src/engine/Engine.ts:355-365 | the flow's records and the rest together are the whole ledger |
| Engine.MatchFilterMembers | packages/core/src/engine/Engine.ts:266-272 | a candidate is kept exactly when its input and output match the pattern and it has not taken part in the rule |
| Engine.BindingsOf | packages/core/src/engine/Engine.ts:201-212 | one binding per matched record |
| Engine.ElemsInit | packages/core/src/engine/Engine.ts:250-257 | the records of all lists but the last are among the records of all lists |
| Engine.BindingLists | packages/core/src/engine/Engine.ts:201-212 | one list of bindings per when-pattern |
| Engine.Row | packages/core/src/engine/Engine.ts:230-242 | one combination issues each then-entry in order, with its input substituted from the combination, in the rule's flow |
| Engine.PlanSize | packages/core/src/engine/Engine.ts:223-258 | a rule issues the number of combinations times the number of then-entries invocations |
| Engine.PlanNoThens | packages/core/src/engine/Engine.ts:230-242 | a rule without then-entries issues nothing |
| Engine.RowSnoc | packages/core/src/engine/Engine.ts:230-242 | one more then-entry adds one call at the end |
| Engine.PlanSnoc | packages/core/src/engine/Engine.ts:223-258 | one more combination adds its row at the end |
| Engine.DropGrown | packages/core/src/engine/Engine.ts:131 | the part of a grown ledger from a point on is the old part followed by what was appended |
| Engine.PerformedSpec | packages/core/src/engine/Engine.ts:236 | the records a rule creates correspond one by one, in order, to the calls it issues |
| Engine.PerformedTriggered | packages/core/src/engine/Engine.ts:236 | every record a rule creates is marked sync-triggered |
| Engine.PerformedSnoc | packages/core/src/engine/Engine.ts:236 | a performed run extended by one call and its record is performed |
| Engine.PerformedAppend | packages/core/src/engine/Engine.ts:223-242 | two performed runs in a row perform the concatenated calls |
| Engine.RunStep | packages/core/src/engine/Engine.ts:230-241 | one more then-entry extends the records of the combination by the entry's call |
| Engine.OutcomeSnoc | packages/core/src/engine/Engine.ts:236-240 | the outcomes since a point hold a returned invocation exactly when they did before the last one or the last one returned |
| Engine.ComboRan | packages/core/src/engine/Engine.ts:223-242 | one more combination extends the records of the plan by its row, and the plan has a returned invocation exactly when it had one before or this combination has one |
| Engine.ComboMarked | packages/core/src/engine/Engine.ts:244-257 | marking for one more combination keeps the mark the first combination gave each matched record, and changes no other record's marks |
| Engine.Flatten | packages/core/src/engine/Engine.ts:250-257 | the marking loops visit only records the patterns matched |
| Engine.StampStep | packages/core/src/engine/Engine.ts:252-255 | marking a record that is unmarked or already carries the rule's mark leaves it carrying the mark |
| Engine.StampOkTrans | packages/core/src/engine/Engine.ts:252-255 | marking twice keeps the mark of the first time |
| Engine.AddAllAppend | packages/core/src/engine/Engine.ts:56 | adding two lists of names to an ordered set is adding one after the other |
| Engine.AddAllMembers | packages/core/src/engine/Engine.ts:56 | a name is in the set after adding exactly when it was there or was added |
| Engine.EdgesForWitness | packages/core/src/engine/Engine.ts:49-60 | every name one then-entry adds is a differently named rule that the entry triggers |
| Engine.EdgesForHit | packages/core/src/engine/Engine.ts:49-60 | every differently named rule the then-entry triggers is added |
| Engine.EdgesForMembers | packages/core/src/engine/Engine.ts:49-60 | one then-entry adds exactly the differently named rules with a when-pattern on its concept and action |
| Engine.TargetsWitness | packages/core/src/engine/Engine.ts:48-61 | every target of a new rule comes from one of its then-entries and a differently named rule that entry triggers |
| Engine.TargetsHit | packages/core/src/engine/Engine.ts:48-61 | every differently named rule one of the thens triggers is a target |
| Engine.TargetsMembers | packages/core/src/engine/Engine.ts:43-62 | a rule gains an edge to another exactly when the other is differently named and has a when-pattern on the concept and action of one of its thens |
| Engine.Reverse | packages/core/src/engine/Engine.ts:71-82 | reversal keeps the length and mirrors the positions |
| Engine.ReverseSnoc | packages/core/src/engine/Engine.ts:71-82 | reversing a list with one more name puts that name first |
| Engine.Dfs | packages/core/src/engine/Engine.ts:69-89 | the search only adds nodes to the visited set; when it reports a cycle, the pushed names read backwards are a walk along edges from the start node whose last node already lies on the stack or earlier on the walk; when it reports none, no walk from the start node returns to a node it passed, and every node it finished gets a rank above all its neighbours' ranks |
| Engine.WalkDescends | packages/core/src/engine/Engine.ts:69-89 | along a walk through ranked nodes the ranks strictly decrease |
| Engine.RankedNoCycle | packages/core/src/engine/Engine.ts:69-89 | no walk from a ranked node returns to a node it already passed |
| Engine.Finish | packages/core/src/engine/Engine.ts:86-88 | a node whose neighbours are all ranked can be ranked above them, keeping every rank below the new bound |
| Engine.FinishedGrow | packages/core/src/engine/Engine.ts:76-84 | nodes the search finished stay finished as more are finished |
| Engine.CycleExtends | packages/core/src/engine/Engine.ts:80-84 | a cycle found from a neighbour stays a cycle once the node is pushed after it |
| Engine.ProperSubsetSmaller | packages/core/src/engine/Engine.ts:76 | visiting a new node shrinks the set of unvisited nodes, so the search terminates |
| Engine.SubsetCard | packages/core/src/engine/Engine.ts:76 | a subset is no larger than its superset |
| Engine.NewNeighbors | packages/core/src/engine/Engine.ts:48-61 | the loops of updateGraph add exactly the rule's targets to its adjacency list, in order |
| Engine.AddEdges | packages/core/src/engine/Engine.ts:49-60 | the loop over rules adds exactly the edges of one then-entry |
| Engine.FindTrigger | packages/core/src/engine/Engine.ts:51-59 | the scan over when-patterns hits exactly when some pattern names the entry's concept and action |
| Engine.BuildIndex | packages/core/src/engine/Engine.ts:368-375 | the rebuilt index is the index of the kept records |
| Engine.LegibleEngine.constructor | packages/core/src/engine/Engine.ts:9-17 | a new engine has no concepts, records, rules, edges or marks |
| Engine.LegibleEngine.IndexedInLedger | packages/core/src/engine/Engine.ts:133-138 | every indexed record is a ledger record |
| Engine.LegibleEngine.RegisterConcept | packages/core/src/engine/Engine.ts:24-26 | the concept is set under its name, replacing an earlier one, and nothing else changes |
| Engine.LegibleEngine.RegisterSync | packages/core/src/engine/Engine.ts:32-41 | the rule is always appended and its adjacency updated; cycles are reported exactly when some rule lies on a walk that returns to a rule it passed, and any cycle reported is such a walk |
| Engine.LegibleEngine.UpdateGraph | packages/core/src/engine/Engine.ts:43-62 | only the new rule's adjacency list changes, gaining its targets |
| Engine.LegibleEngine.DetectCycles | packages/core/src/engine/Engine.ts:64-98 | the result is non-empty exactly when some rule starts a walk along rule edges that returns to a rule it passed; a non-empty result, read backwards, is such a walk |
| Engine.LegibleEngine.ClearFlow | packages/core/src/engine/Engine.ts:363-376 | the ledger keeps exactly the other flows' records and the index is rebuilt to mirror it |
| Engine.LegibleEngine.Reset | packages/core/src/engine/Engine.ts:382-387 | the ledger, the index and both cascade sets are emptied; concepts and rules are kept |
| Engine.LegibleEngine.MatchWhenSpec | packages/core/src/engine/Engine.ts:263-273 | a record matches exactly when it is in the ledger under the pattern's key, satisfies the pattern, and has not taken part in the rule |
| Engine.LegibleEngine.MatchAll | packages/core/src/engine/Engine.ts:192-198 | one match list per when-pattern, in pattern order |
| Engine.LegibleEngine.MatchAllIndexed | packages/core/src/engine/Engine.ts:192-198 | every matched record is an indexed record |
| Engine.MatchAllIn | packages/core/src/engine/Engine.ts:190-198 | one match list per when-pattern, each the matchWhen result for its pattern |
| Engine.MatchAllInIndexed | packages/core/src/engine/Engine.ts:190-198 | every matched record is listed in the index |
| Engine.PlanIn | packages/core/src/engine/Engine.ts:184-188 | a rule that already fired in the cascade plans no invocation |
| Engine.MakeStep | packages/core/src/engine/Engine.ts:184-261 | the guards, the invocations issued, their outcomes and the marks tryFireSync leaves make up one scan step: the records added are the plan, the rule joins the fired set exactly when one of its invocations returned, its matched records carry its mark and no other record's marks change |
| Engine.ScanStepIdle | packages/core/src/engine/Engine.ts:184-198 | in a scan step, a rule that does not fire adds no record and no outcome, and changes neither the marks nor the fired set |
| Engine.BlockedIdle | packages/core/src/engine/Engine.ts:184-198 | a rule that already fired, or with a pattern that matches nothing, does not fire and plans no invocation |
| Engine.ScanStepGrow | packages/core/src/engine/Engine.ts:176-178 | a scan step stays a step of a ledger and an invoke log that later rules extended |
| Engine.ScanStepsSpec | packages/core/src/engine/Engine.ts:176-178 | a chain of scan steps means each rule in turn took one step from its state to the next |
| Engine.ScanStepsGrow | packages/core/src/engine/Engine.ts:176-178 | the steps taken so far stay steps of a ledger and an invoke log that later rules extended |
| Engine.ScanStepsPrefix | packages/core/src/engine/Engine.ts:176-178 | the steps taken so far do not depend on the states recorded after them |
| Engine.LegibleEngine.Invoke | packages/core/src/engine/Engine.ts:109-168 | every call appends one record, also when it fails or is skipped, and logs whether it returned; an unknown concept fails and a fingerprint already run in the cascade is skipped, neither running anything nor scanning the rules; otherwise the concept runs once and its result is returned and stored, and an invoke made outside a scan then scans the rules, each rule taking one scan step from the state after the record was appended, and a nested one adds only its record |
| Engine.LegibleEngine.InvokeOnce | packages/core/src/engine/Engine.ts:116-167 | invoke without the rule scan: exactly one record with the next id is appended, carrying the stored result or none; the fingerprint is logged exactly when the concept ran, and the invoke log gains whether the call returned |
| Engine.LegibleEngine.StartCascade | packages/core/src/engine/Engine.ts:116-119 | an outermost call empties the executed and fired sets; a sync-triggered one keeps them |
| Engine.LegibleEngine.Record | packages/core/src/engine/Engine.ts:121-138 | a fresh record with the next id and the given output is appended to the ledger and to its index list, and the invoke log gains the given outcome |
| Engine.LegibleEngine.Execute | packages/core/src/engine/Engine.ts:151-162 | the fingerprint joins the cascade, the concept runs once and keeps its new state, and its result is returned |
| Engine.LegibleEngine.TriggerSyncs | packages/core/src/engine/Engine.ts:170-182 | one pass over the rules in registration order with the scan flag raised and lowered again: the ghost states chain from the state before the scan to the state after it, and each rule took one scan step between consecutive states, so its new records are its plan, it joined the fired set exactly when one of its invocations returned, and only its matched records' marks changed; every record it creates is sync-triggered and the fired set only grows |
| Engine.LegibleEngine.ScanRule | packages/core/src/engine/Engine.ts:176-178 | one rule of the scan, tryFireSync, extends the chain of scan steps by one step from the state before it to the state after it |
| Engine.LegibleEngine.TryFireSync | packages/core/src/engine/Engine.ts:184-261 | a rule already fired or with an unmatched pattern does nothing; otherwise it issues exactly its plan of invocations and marks every matched record with the rule; it fires, and joins the fired set, exactly when one of its invocations returned; no record it did not match has its marks changed; together this is one scan step |
| Engine.LegibleEngine.FireRule | packages/core/src/engine/Engine.ts:190-260 | past the guards, the rule issues its plan and marks its matched records, fires exactly when one of its invocations returned, and changes no other record's marks |
| Engine.LegibleEngine.FireCombos | packages/core/src/engine/Engine.ts:222-258 | the combinations run in order, each its whole then list; the rule fires, and joins the fired set, exactly when one of the invocations returned; the matched records are marked and no other record's marks change |
| Engine.LegibleEngine.FireCombo | packages/core/src/engine/Engine.ts:223-258 | one combination runs its then list; the rule has fired afterwards exactly when it had before or one of these invocations returned; the fired set follows, the matched records are marked and no other record's marks change |
| Engine.LegibleEngine.MarkCombo | packages/core/src/engine/Engine.ts:244-257 | the rule joins the fired set when it fired, every matched record receives its mark, and no other record's marks change |
| Engine.LegibleEngine.RunRow | packages/core/src/engine/Engine.ts:230-242 | each then-entry is invoked in order as sync-triggered, a failure being swallowed; the result is true exactly when one of these invocations returned |
| Engine.LegibleEngine.RunThen | packages/core/src/engine/Engine.ts:231-241 | one then-entry is invoked with its substituted input, creating exactly one record; the result tells whether the invoke returned, and the invoke log gains it |
| Engine.LegibleEngine.StampAll | packages/core/src/engine/Engine.ts:250-257 | every matched record without an entry for the rule gets one with a fresh id; other records are untouched |
| Parser.SkipWs | packages/core/src/parser.ts:177-181 | the cursor moves over whitespace only, and stops at the end or on a non-space |
| Parser.WordEnd | packages/core/src/parser.ts:158-160 | the cursor moves to the end or to the first non-word character |
| Parser.SkipWsRun | packages/core/src/parser.ts:177-181 | everything skipWhitespace steps over is whitespace |
| Parser.WordEndRun | packages/core/src/parser.ts:158-160 | everything the word loop steps over is a word character |
| Parser.WordAt | packages/core/src/parser.ts:155-162 | readWord skips whitespace and returns the maximal, possibly empty, run of word characters, stopping before the next non-word character |
| Parser.Context | packages/core/src/parser.ts:167 | the error quotes at most ten characters of what stands at the cursor |
| Parser.ExpectAt | packages/core/src/parser.ts:164-170 | expect succeeds exactly when the literal stands at the cursor after whitespace, and moves past it; otherwise the error names the literal and the context |
| Parser.UntilAt | packages/core/src/parser.ts:183-188 | skipUntil moves past the first occurrence of the character, or to the end when there is none |
| Parser.QuoteAt | packages/core/src/parser.ts:143 | the first closing quote from a position, or none when the rest holds no quote |
| Parser.QuotedAt | packages/core/src/parser.ts:141-145 | a quoted read ends past its closing quote |
| Parser.ValueAt | packages/core/src/parser.ts:139-153 | readValue never moves the cursor backwards or past the end |
| Parser.EntryAt | packages/core/src/parser.ts:124-127 | an entry consumes input, its key is a word and its value a string |
| Parser.ObjectLoop | packages/core/src/parser.ts:123-135 | the object loop never moves the cursor backwards |
| Parser.ObjectLoopStep | packages/core/src/parser.ts:124-134 | one round of the object loop: the entry is written into the object, then a lone comma or a closing brace decides how the loop goes on |
| Parser.ObjectAt | packages/core/src/parser.ts:120-137 | parseObject never moves the cursor backwards |
| Parser.PatternAt | packages/core/src/parser.ts:61-71 | a when-entry consumes input |
| Parser.InvocationAt | packages/core/src/parser.ts:110-118 | a then-entry consumes input |
| Parser.WhenLoop | packages/core/src/parser.ts:53-57 | the when loop consumes input |
| Parser.WhenAt | packages/core/src/parser.ts:50-59 | a when block consumes input |
| Parser.ThenLoop | packages/core/src/parser.ts:102-106 | the then loop consumes input |
| Parser.ThenAt | packages/core/src/parser.ts:99-108 | a then block consumes input |
| Parser.QueryAt | packages/core/src/parser.ts:87-91 | a concept query consumes input |
| Parser.WhereLoop | packages/core/src/parser.ts:76-94 | the where loop consumes input |
| Parser.WhereAt | packages/core/src/parser.ts:73-97 | a where block consumes input |
| Parser.SyncLoop | packages/core/src/parser.ts:33-45 | the block loop of a rule never moves the cursor backwards |
| Parser.SyncAt | packages/core/src/parser.ts:26-48 | a sync rule consumes input |
| Parser.ValueQuoted | packages/core/src/parser.ts:141-145 | a quoted value is read with both quotes up to the first closing quote, holding no quote inside; without a closing quote the read fails |
| Parser.ValueVariable | packages/core/src/parser.ts:146-147 | a ?x value is read as the empty word, with the cursor left on the ? |
| Parser.ValueCall | packages/core/src/parser.ts:148-149 | an f() value is read as f followed by (), with the cursor left before the parentheses |
| Parser.ObjectEmpty | packages/core/src/parser.ts:123 | an object that starts with a closing brace is empty and leaves the cursor on the brace |
| Parser.ObjectEndsAtBrace | packages/core/src/parser.ts:123-136 | parseObject stops only on a closing brace, which it leaves for the caller |
| Parser.PutFields | packages/core/src/parser.ts:128 | writing a key adds only that entry to the object |
| Parser.ObjectShape | packages/core/src/parser.ts:120-137 | a parsed object has word keys, each once, and string values |
| Parser.EntryNoColon | packages/core/src/parser.ts:124-125 | an entry that does not start with a word and a colon fails on the colon |
| Parser.ObjectCommaFails | packages/core/src/parser.ts:129-134 | the separator test compares the whole rest of the input with a comma, so a comma followed by more text is not consumed and the next entry fails on a missing colon |
| Parser.ObjectVariableFails | packages/core/src/parser.ts:124-128 | a ?x value leaves the cursor on the ?, so the next entry fails on a missing colon |
| Parser.PatternShape | packages/core/src/parser.ts:61-71 | a when-entry has word concept and action and two parsed objects |
| Parser.InvocationShape | packages/core/src/parser.ts:110-118 | a then-entry has word concept and action and a parsed input |
| Parser.AppendedTail | packages/core/src/parser.ts:53-56 | a loop that appends only good entries keeps what it started with and adds only good entries |
| Parser.WhenLoopShape | packages/core/src/parser.ts:50-59 | the when block keeps the patterns read so far and adds only parsed patterns after them |
| Parser.WhenLoopStep | packages/core/src/parser.ts:53-56 | one round of the when block reads a pattern and goes on after it |
| Parser.WhenLoopEnd | packages/core/src/parser.ts:57 | the when block ends just past a closing brace |
| Parser.ThenLoopShape | packages/core/src/parser.ts:99-108 | the then block keeps the invocations read so far and adds only parsed invocations after them |
| Parser.ThenLoopStep | packages/core/src/parser.ts:102-105 | one round of the then block reads an invocation and goes on after it |
| Parser.ThenLoopEnd | packages/core/src/parser.ts:106 | the then block ends just past a closing brace |
| Parser.WhereLoopShape | packages/core/src/parser.ts:76-94 | a later query for the same concept replaces the earlier one, so the query keeps word names, each once |
| Parser.SyncLoopShape | packages/core/src/parser.ts:33-45 | the blocks of a rule keep its name and leave it a parsed rule |
| Parser.SyncNoMoreBlocks | packages/core/src/parser.ts:33 | at the end of input or at the next sync the rule is complete, missing blocks staying empty |
| Parser.SyncUnexpectedBlock | packages/core/src/parser.ts:40-43 | text that starts no known block is an error naming the rest |
| Parser.SyncShape | packages/core/src/parser.ts:26-31 | the rule's name is the word after sync, and the rule is a parsed rule |
| Parser.RulesLoopShape | packages/core/src/parser.ts:12-24 | parse keeps the rules read so far and adds only parsed rules after them, in source order |
| Parser.RulesLoopStep | packages/core/src/parser.ts:14-16 | one round of parse reads a rule and goes on after it |
| Parser.ParseBlank | packages/core/src/parser.ts:14 | empty or whitespace-only input holds no rules |
| Parser.ParseUnexpected | packages/core/src/parser.ts:17-20 | any other leading text than sync is an error naming it |
| Parser.ParseShape | packages/core/src/parser.ts:191-194 | every rule the parser returns is a parsed rule |
| Parser.SyncParser.constructor | packages/core/src/parser.ts:7-10 | a new parser holds the input with the cursor at 0 |
| Parser.SyncParser.SkipWhitespace | packages/core/src/parser.ts:177-181 | the loop moves the cursor to the end of the whitespace run |
| Parser.SyncParser.Peek | packages/core/src/parser.ts:172-175 | whitespace is skipped and the rest of the input returned |
| Parser.SyncParser.ReadWord | packages/core/src/parser.ts:155-162 | the loop reads the word readWord defines and leaves the cursor after it |
| Parser.SyncParser.Expect | packages/core/src/parser.ts:164-170 | succeeds and moves exactly as expect defines, or fails with its message |
| Parser.SyncParser.SkipUntil | packages/core/src/parser.ts:183-188 | the loop moves the cursor past the first occurrence of the character, or to the end |
| Parser.SyncParser.ReadQuoted | packages/core/src/parser.ts:141-145 | the loop reads the quoted value up to its closing quote, or fails without one |
| Parser.SyncParser.ReadValue | packages/core/src/parser.ts:139-153 | the value and the cursor agree with readValue's definition |
| Parser.SyncParser.ReadEntry | packages/core/src/parser.ts:124-127 | the entry and the cursor agree with its definition |
| Parser.SyncParser.ParseObject | packages/core/src/parser.ts:120-137 | the loop's object and cursor agree with parseObject's definition |
| Parser.SyncParser.ParsePattern | packages/core/src/parser.ts:61-71 | the pattern and the cursor agree with parsePattern's definition |
| Parser.SyncParser.ParseInvocation | packages/core/src/parser.ts:110-118 | the invocation and the cursor agree with parseInvocation's definition |
| Parser.SyncParser.ParseWhen | packages/core/src/parser.ts:50-59 | the loop's patterns and cursor agree with parseWhen's definition |
| Parser.SyncParser.ParseThen | packages/core/src/parser.ts:99-108 | the loop's invocations and cursor agree with parseThen's definition |
| Parser.SyncParser.ReadQuery | packages/core/src/parser.ts:87-91 | the concept query and the cursor agree with its definition |
| Parser.SyncParser.ParseWhere | packages/core/src/parser.ts:73-97 | the loop's query and cursor agree with parseWhere's definition |
| Parser.SyncParser.ParseSync | packages/core/src/parser.ts:26-48 | the loop's rule and cursor agree with parseSync's definition |
| Parser.SyncParser.Parse | packages/core/src/parser.ts:12-24 | the loop returns the rules parse defines from the cursor on |
| Parser.ParseSyncDSL | packages/core/src/parser.ts:191-194 | a fresh parser run once returns the parse of the whole text |
| Order.OrderStore.constructor | packages/example-eda/src/plugins/orders/concepts/Order.ts:6-9 | a new store holds no orders and no items |
| Payment.PaymentStore.constructor | packages/example-eda/src/plugins/payments/concepts/Payment.ts:6-9 | a new store holds no payments and no transactions |
| Inventory.InventoryStore.constructor | packages/example-eda/src/plugins/inventory/concepts/Inventory.ts:5-8 | a new store holds no stock levels |
| Product.ProductStore.constructor | packages/example-eda/src/plugins/products/concepts/Product.ts:6-9 | a new store holds no products and no SKUs |
| EdaUser.UserStore.constructor | packages/example-eda/src/plugins/users/concepts/User.ts:6-10 | a new store holds no users, e-mails or usernames |
| Analytics.AnalyticsStore.constructor | packages/example-eda/src/plugins/analytics/concepts/Analytics.ts:5-8 | a new store holds no events and no counters |
| Notification.NotificationStore.constructor | packages/example-eda/src/plugins/notifications/concepts/Notification.ts:5-7 | a new store holds no history |
| EventBus.Bus.constructor | packages/example-eda/src/core/EventBus.ts:14-18 | a new bus has no subscriptions |
| Plugins.PluginManager.constructor | packages/example-eda/src/core/PluginManager.ts:12-17 | a new manager holds its engine and no plugins |
| ConsoleUser.UserStore.constructor | packages/example-console/src/concepts/User.ts:5-9 | a new store holds no users |
| ConsoleComment.CommentStore.constructor | packages/example-console/src/concepts/Comment.ts:5-11 | a new store holds no comments |
| Persistence.TripleStore.constructor | packages/example-console/src/concepts/Persistence.ts:5-7 | a new store holds no triples |
| Article.ArticleStore.constructor | packages/example-express/src/concepts/Article.ts:10-16 | a new store holds no articles |
| Favorite.FavoriteStore.constructor | packages/example-express/src/concepts/Favorite.ts:5-7 | a new store holds no favorites |
| ExpressComment.CommentStore.constructor | packages/example-express/src/concepts/Comment.ts:5-11 | a new store holds no comments |
| NextComment.CommentStore.constructor | packages/example-nextjs-sse/src/concepts/Comment.ts:5-10 | a new store holds no comments |
| Maps.FreshValueInjective | packages/example-express/src/concepts/Article.ts:26-32 | giving a key a value no other key holds keeps the map one-to-one |

## Left out

- Rule marks (`record.syncEdges[rule]`) are held in an engine map keyed by record (`syncEdges`), read through `EdgesOf`, rather than in a field of each record. The marks and their meaning are the same; only where they are stored differs.
- Fresh identifiers and time come from outside the model:
  - `uuidv4` ids are drawn from an engine counter (`nextId`), so every new record id is fresh and larger than all earlier ones;
  - concept ids and `Date`/`Date.now()` timestamps are parameters of the operations that use them.
- `async`/`await` is sequential: every invocation is an ordinary method call, and no interleaving is modelled.
- Nothing that only prints is modelled: `console.log`/`console.warn` output, `auditFlow`'s report and the cycle warning that `registerSync` logs. `RegisterSync` returns the cycles it found instead.
- The loop fingerprint is the datatype `Fingerprint(concept, action, input)`, which is injective. The source's string `${concept}:${action}:${JSON.stringify(input)}` is not: names containing `:` can give two invocations the same fingerprint, as they can give two records the same index key. That collision is not modelled.
- Objects (`Json`) keep their keys in insertion order. JavaScript lists integer-like keys first, in ascending order, in spreads, `JSON.stringify` and `Object.fromEntries`. That reordering is not modelled, so a fingerprint or a metrics object with such keys can differ in key order from the source's.
- A record's `output` is fixed when the record is created, after the concept has run. The source pushes the record first and assigns `record.output` afterwards. Concepts are oracles here, so nothing can read the record in between. The record is still created for an unknown concept or a skipped call, with no output, and it comes before any record the rule scan adds.
- `Audit.Summarize`: the success rate is a real number, and `Math.round(x * 100) / 100` is modelled exactly. Floating-point representation error is not.
- Floating-point prices, totals and amounts are not modelled:
  - Inventory's `total` (`parseFloat(price) * quantity`) is a whole-number sum;
  - Product's `Number(price)` and payment amounts are whole numbers.
- Typed action inputs: a field the source only tests for truthiness is a parameter, and an absent value reads as `""` or `0`.
- Update objects handed to `Product` and `EdaUser` `update` must have unique keys (`UniqueKeys`), as a JavaScript object always has.
- `Article.Lower`: `toLowerCase` is modelled for the ASCII letters only, and every other character is kept as it is. JavaScript also lower-cases non-ASCII letters, sometimes into more than one character: KELVIN SIGN (U+212A) becomes `k`, so the source's slug of that title is `k` where the model's is empty. Whitespace (`\s`, and what `trim` strips) is the full JavaScript set, and `\w` is ASCII in JavaScript too.
- `Parser.Context`: strings are sequences of Unicode characters here, while JavaScript strings are sequences of UTF-16 code units. Lengths, indices and slices differ on text with characters outside the Basic Multilingual Plane: the model's error context quotes ten characters where `slice(pos, pos + 10)` quotes ten code units. The other readers compare and step over characters one at a time, and the characters they test for (quotes, braces, `\s`, `\w`) are all single code units.
- `Matching.MatchPath` covers patterns built from letters, digits, `-`, `_`, `/` and `*`. Other regular-expression metacharacters in a pattern are not modelled.
- `Parser.SyncParser.ReadValue`: an unterminated quoted string fails with "Unterminated string". The source's closing-quote loop has no end-of-input test and never returns.
- The parser skips a `where { … }` block without building `bind`/`filter`, as the source does. A `where.filter` in the engine is a total predicate given with the rule; a filter that throws is not modelled.
- Plugin `initialize` hooks and `EventBus` handlers are oracles. Their effects are outside the model; the model keeps only the order of the calls and which handler failures are caught.
- Persistence's triple field `predicate` is named `relation`, because `predicate` is a Dafny keyword.
- `Analytics.AnalyticsStore.GetMetrics` returns the counters as an object in first-track order, as `Object.fromEntries` over the `Map` does.
- `Product.ProductStore.ListProducts`: its own contract states which products are listed, not their order. The insertion order follows from `FilterListedAppend` and `FilterListedOne`.
- `Article.Slugify` (packages/example-express/src/concepts/Article.ts:5-7): has no contract of its own. It is the pipeline `Keep(Dash(Lower(title)))`; `SlugChars` and `SlugifyIdempotent` state what it yields.
- `Matching.MatchPath` (packages/core/src/engine/Engine.ts:290-298): has no contract of its own. It is the anchored match where `*` stands for one or more non-slash characters; `LiteralPathMatchesItself`, `StarMatchesOneSegment` and `MatchPathKeepsDepth` state its properties.
- `Matching.FieldMatches` and `Matching.MatchRecord` (packages/core/src/engine/Engine.ts:275-288): have no contract of their own. They are the per-key test (path wildcard, `?variable` presence, strict equality) and its conjunction over the pattern's keys; `LiteralRecordMatch`, `VariableMatchesPresence` and `MatchRecordAppend` state their properties.
- `Bindings.RecordBindings` (packages/core/src/engine/Engine.ts:200-210): has no contract of its own. It is `{...input, ...output}` with a non-object output read as `{}`; `RecordBindingsGet` and `RecordBindingsNoOutput` state its properties.
- `Bindings.Product` (packages/core/src/engine/Engine.ts:300-305): has no contract of its own. It is the `reduce`/`flatMap` cartesian product with left-to-right merging; `ProductSize`, `ProductOfNothing`, `SizeProductZero`, `ProductAt` and `ProductOnlyChoices` state its properties.
- `Bindings.GetNested` (packages/core/src/engine/Engine.ts:307-323): has no contract of its own. It is the walk along the dot-separated segments, with the `path[n]` case on strings; `GetNestedSimple`, `GetNestedDotted`, `GetNestedUnbound` and `IndexedSegmentOnString` state its properties.
- `Bindings.Interpolate` (packages/core/src/engine/Engine.ts:331-336): has no contract of its own. It replaces each `?word.path` reference that resolves by `String(value)`; `InterpolatePlain` and `InterpolateUnbound` state its properties, and `Replace` carries its own contract.
- `Engine.LegibleEngine.ActionsByFlow` (packages/core/src/engine/Engine.ts:355-357): has no contract of its own. It is `ByFlow` over the ledger; `ByFlowSpec` and `FlowPartition` state its properties.
- `Engine.LegibleEngine.MatchWhen` (packages/core/src/engine/Engine.ts:263-273): has no contract of its own. It is `MatchIn` over the index and the marks; `MatchWhenSpec` states exactly which records it returns.
- `Order.Next` and `Order.Run` (packages/example-eda/src/plugins/orders/concepts/Order.ts:51-101): have no contract of their own. They are the status transitions of confirm, cancel and ship, and their repetition over a run; `ShippedWasConfirmed` and `CancelledIsFinal` state the lifecycle they allow.
- `Payment.Next` and `Payment.Run` (packages/example-eda/src/plugins/payments/concepts/Payment.ts:40-158): have no contract of their own. They are the status transitions of process, confirm, fail and refund, and their repetition over a run; `RefundAtMostOnce`, `RefundsAfterFail` and `RefundNeedsConfirm` state the lifecycle they allow.
- `Payment.RefundOf` (packages/example-eda/src/plugins/payments/concepts/Payment.ts:133): has no contract of its own. It is `amount || payment.amount`; the contract of `PaymentStore.Refund` uses it.
- `Inventory.Total` (packages/example-eda/src/plugins/inventory/concepts/Inventory.ts:28-48): has no contract of its own. It is the sum of quantity times price over the items; `InventoryStore.CheckAvailability` is proved to return it.
- `Inventory.DeductRun` (packages/example-eda/src/plugins/inventory/concepts/Inventory.ts:53-67): has no contract of its own. It is the item-by-item deduction that stops at the first short item; `InventoryStore.Deduct` is proved to follow it, and `DeductKeepsNonNegative`, `AvailableDeducts` and `RepeatedProductPassesCheck` state its properties.
- `Parser.ParseText` (packages/core/src/parser.ts:12-24): has no contract of its own. It is the whole parse of a text; `ParseSyncDSL` is proved to return it, and `ParseBlank`, `ParseUnexpected` and `ParseShape` state its properties.
- `Persistence.TripleStore.Query`: has no contract of its own. It is the function `Filter`, whose membership and order properties are proved as lemmas.
- `Audit.GetFlowSummary`: has no contract of its own. It is `Summarize` applied to `getActionsByFlow`, and both of those carry the contracts.
- The SQLite queue, the CLI, the documentation generator, HTTP servers, React components and the example `index.ts` programs are not part of this model: they are I/O, configuration or transport.
- The Password, JWT, Web, CSVWriter, Logger and SSEEmitter concepts are not part of this model: each is a thin wrapper over a library or a side effect.
- The `*.sync.ts` rule files and the plugin bundles are declarations, not logic, and are not modelled.
