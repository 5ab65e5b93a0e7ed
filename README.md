# ETechEcommerce, modelled in Dafny

ETechEcommerce is a shop for electrical and sanitary goods. It exists in
three overlapping implementations:

- an Express server with an in-memory store (`server/storage.ts`,
  `server/routes.ts`) and a Vite/React client (`client/src/...`);
- a Next.js app (`src/app/...`, `src/lib/...`, `middleware.ts`) with its own
  admin pages, admin API routes and image upload to Cloudinary.

This project models the logic of those pages, routes and stores. It covers:

- the store's maps and id counters, and its queries;
- the REST routes' status codes;
- the admin guards;
- the product filters and their sort orders;
- the admin product and category forms;
- the inquiry counters;
- the image-upload fields with their network requests and confirmation dialogs.

It proves what each of them promises its user.

The shape of the model follows the source:

- A React component's state becomes a `class` whose methods are its event
  handlers.
- The store becomes a class over `map` fields.
- A computation over props becomes a function with lemmas.

Several things the source receives from outside become parameters:

- dialogs (`confirm`) are a `bool` parameter;
- network answers are an `Option` parameter of the method that handles the
  answer;
- clocks are an `Instant`/`int` parameter;
- JWT verification is a `Verification` value.

JavaScript's operators are modelled where they matter:

- `parseFloat`/`parseInt` give `Option` (`NaN` is `None`);
- a comparator returning `NaN` counts as `0`;
- `slice` clamps;
- truthiness of a string means present and non-empty.

Shared modules:

| module | models |
|---|---|
| `Wrappers` | `Option`, truthiness of optional strings and lists |
| `Text` | ASCII `toLowerCase`/`toUpperCase`, `includes`, `startsWith`, `split`/`join`, `trim` |
| `Numbers` | `parseInt`, `parseFloat`, `Number()` on decimal strings, `String(n)` |
| `Seqs` | `filter`, `find`, `map`, `some` on arrays |
| `Sorting` | `Array.prototype.sort` with a comparator: a stable insertion sort |
| `Dashes` | the slug generators' dash handling |
| `Paging` | page counts and page slices |
| `Selections` | checkbox lists (toggle in, toggle out) |

## Model

| member | source | states |
|---|---|---|
| Storage.MemStorage.constructor | server/storage.ts:43-56 | empty user, cart and inquiry maps with counters at 1; the two seeded categories get ids 1 and 2; the catalogue's products are numbered 1..n; every map is keyed by its values' ids below its counter |
| Storage.MemStorage.InitializeData | server/storage.ts:58-208 | the categories Electrical and Sanitary get ids 1 and 2, the catalogue is stored under ids 1..n, and the category and product counters move past the issued ids |
| Storage.MemStorage.LoadProducts | server/storage.ts:203-206 | the `forEach` over the sample products stores the i-th product under id i with that id, and leaves the counter at n + 1 |
| Storage.NumberedStep | server/storage.ts:203-206 | storing one more sample adds it under the next id and leaves the earlier ids as they were |
| Storage.SampleProducts | server/storage.ts:80-201 | the seed catalogue has six products |
| Storage.KeyedInsert | server/storage.ts:218-222 | storing a value under the next counter value keeps the map keyed by ids below the advanced counter |
| Storage.MemStorage.CreateUser | server/storage.ts:218-223 | the new user gets the counter's id, which is fresh and above every stored id; the map gains exactly that entry; the counter advances |
| Storage.MemStorage.CreateCategory | server/storage.ts:234-239 | as for users: a fresh largest id, one new map entry, counter advanced |
| Storage.MemStorage.CreateProduct | server/storage.ts:273-282 | as for users, and `createdAt` is the current instant |
| Storage.MemStorage.CreateInquiry | server/storage.ts:334-344 | as for products: fresh largest id, `createdAt` now, one new entry |
| Storage.MemStorage.GetUser | server/storage.ts:210-212 | found exactly when the id is a key, and then it is that entry |
| Storage.MemStorage.GetProductById | server/storage.ts:265-267 | found exactly when the id is a key, and then it is that entry |
| Storage.ListedIsStored | server/storage.ts:226-228 | `Array.from(map.values())` holds exactly the stored values, in ascending id order (insertion order) |
| Storage.FindStored | server/storage.ts:214-216 | `find` over the listed values: none exactly when no stored value matches; otherwise a stored match with the smallest id |
| Storage.FindFirstByKey | server/storage.ts:214-216 | on values listed in increasing key order, `find` returns, among the values that match, the one with the least key |
| Storage.MemStorage.GetUserByUsername | server/storage.ts:214-216 | a stored user with that username and the smallest id of all such, or none exactly when no user has it |
| Storage.MemStorage.GetCategories | server/storage.ts:226-228 | exactly the stored categories, in ascending id order |
| Storage.MemStorage.GetCategoryBySlug | server/storage.ts:230-232 | a stored category with that slug and the smallest such id, or none exactly when no category has the slug |
| Storage.MemStorage.GetProductBySlug | server/storage.ts:269-271 | a stored product with that slug and the smallest such id, or none exactly when no product has the slug |
| Storage.ProductsQueryFacts | server/storage.ts:242-263 | the three successive filters keep exactly the stored products that match every given filter, without duplicates |
| Storage.MemStorage.GetProducts | server/storage.ts:242-263 | exactly the stored products matching the category (when non-zero), the featured flag (when given) and the case-insensitive search in name, brand or description (when non-empty), each once, newest first |
| Storage.AttachMembers | server/storage.ts:289-292 | pairing cart lines with their products keeps exactly the lines whose product exists, each with that product |
| Storage.AttachOrder | server/storage.ts:289-292 | pairing keeps the lines' id order |
| Storage.SessionLinesFacts | server/storage.ts:285-293 | the session's lines are exactly its stored cart items whose product exists, in ascending id order |
| Storage.MemStorage.GetCartItems | server/storage.ts:285-293 | exactly the session's stored cart items whose product still exists, each with its product, in ascending id order |
| Storage.NewLineKeepsLines | server/storage.ts:306-309 | a new line for a (session, product) pair not yet in the cart keeps one line per pair |
| Storage.SetQuantityKeepsLines | server/storage.ts:312-319 | changing a line's quantity keeps the map keyed and one line per pair |
| Storage.MemStorage.AddToCart | server/storage.ts:295-310 | an existing line for the same session and product has its quantity increased by the request's, with no id issued; otherwise a new line gets a fresh id; the cart keeps one line per (session, product) |
| Storage.MemStorage.UpdateCartItem | server/storage.ts:312-319 | none, with nothing changed, exactly when the id is unknown; otherwise the line with the new quantity, stored in place |
| Storage.RemoveKeepsLines | server/storage.ts:321-331 | removing any set of lines keeps the map keyed and one line per pair |
| Storage.MemStorage.RemoveFromCart | server/storage.ts:321-323 | true exactly when the id was stored; the line is gone and nothing else changes |
| Storage.CollectSessionIds | server/storage.ts:326-328 | the collected ids are exactly the keys of the session's lines |
| Storage.SubmapKeepsLines | server/storage.ts:325-331 | any restriction of a well-formed cart is well formed |
| Storage.NoSessionLines | server/storage.ts:325-331 | with no line of the session left, the session's cart reads empty |
| Storage.MemStorage.ClearCart | server/storage.ts:325-331 | exactly the session's lines are removed, the others are unchanged, and the session's cart then reads empty |
| Routes.GetCategoryRoute | server/routes.ts:18-28 | 404 exactly when no stored category has the slug; otherwise a stored category with that slug |
| Routes.FeaturedParam | server/routes.ts:35 | `true` exactly for the text `true`, `false` exactly for the text `false`, absent for anything else |
| Routes.CategoryIdParam | server/routes.ts:34 | absent or empty gives no filter; any other text gives `parseInt` of it |
| Routes.CategoryIdOfDigits | server/routes.ts:34 | the decimal text of a number gives that number back |
| Routes.FeaturedQuery | server/routes.ts:33-39 | `featured=true`/`false` keeps only featured/unfeatured products; any other value filters exactly as if it were absent |
| Routes.GetProductsRoute | server/routes.ts:31-44 | always answers with a list: exactly the stored products matching the filters built from the query |
| Routes.GetProductRoute | server/routes.ts:46-56 | 404 exactly when no stored product has the slug; otherwise a stored product with that slug |
| Routes.PostCartRoute | server/routes.ts:68-79 | 400 with the cart and its id counter unchanged exactly when the body fails validation; otherwise the stored line for that session and product |
| Routes.PutCartRoute | server/routes.ts:81-99 | 400 exactly when the quantity is missing, zero or below 1; 404 exactly when the quantity is acceptable but the id is `NaN` or unknown; the cart changes only on success, where the line gets the new quantity |
| Routes.DeleteCartRoute | server/routes.ts:101-114 | success exactly when the parsed id is stored; 404 with the cart unchanged otherwise; the line is removed |
| CloudinaryHook.FirstSlash | client/src/hooks/use-cloudinary.ts:207-212 | the index of the first `/`, or -1 exactly when there is none |
| CloudinaryHook.PathAfterUpload | client/src/hooks/use-cloudinary.ts:196-201 | none exactly when no `/`-separated segment is `upload` |
| CloudinaryHook.UploadSplit | client/src/hooks/use-cloudinary.ts:196 | the segments of `base/upload/rest` are those of `base`, then `upload`, then those of `rest` |
| CloudinaryHook.PathAfterUploadOf | client/src/hooks/use-cloudinary.ts:196-201 | after the first `upload` segment, the rest of the URL comes back whole, folders included |
| CloudinaryHook.VersionMatchOf | client/src/hooks/use-cloudinary.ts:207-209 | a leading `v<digits>/` is matched whole, and cutting it leaves the rest |
| CloudinaryHook.ExtendNoSlash | client/src/hooks/use-cloudinary.ts:212 | the first `/` after a slash-free segment is the one right after it |
| CloudinaryHook.StripExtension | client/src/hooks/use-cloudinary.ts:219 | the result is a prefix of the input; a cut removes the last `.` and what follows it, and happens exactly when some character follows that dot; otherwise the input is unchanged |
| CloudinaryHook.StripOf | client/src/hooks/use-cloudinary.ts:219 | `p.ext` loses exactly `.ext` |
| CloudinaryHook.ExtractPublicId | client/src/hooks/use-cloudinary.ts:193-227 | none exactly when no segment is `upload` |
| CloudinaryHook.VersionedUrl | client/src/hooks/use-cloudinary.ts:193-227 | `.../upload/v<digits>/<p>.<ext>` gives `p` |
| CloudinaryHook.TransformedUrl | client/src/hooks/use-cloudinary.ts:210-216 | a leading transformation segment (one holding `_` or `,`) is dropped: `.../upload/<t>/<p>.<ext>` gives `p` |
| CloudinaryHook.PlainUrl | client/src/hooks/use-cloudinary.ts:193-227 | `.../upload/<p>.<ext>` gives `p` |
| CloudinaryHook.PlanDelete | client/src/hooks/use-cloudinary.ts:149-161 | no request is needed exactly when the URL is empty or does not contain `cloudinary.com`; no request is possible exactly when it does but no non-empty public id comes out; any request carries the extracted id |
| CloudinaryHook.DeleteImage | client/src/hooks/use-cloudinary.ts:149-190 | true without a request for a URL that is not Cloudinary's, false without a request when no public id comes out, otherwise the request's success |
| UploadRoute.StripExtension | src/app/api/upload/route.ts:123-126 | the result is a prefix of the input; the cut happens at the last `.` and only when that dot is not first, so `.png` stays whole |
| UploadRoute.StripOf | src/app/api/upload/route.ts:123-126 | a non-empty dot-free `p` with `.ext` loses exactly `.ext` |
| UploadRoute.ExtractPublicId | src/app/api/upload/route.ts:109-133 | none exactly when no segment is `upload` |
| UploadRoute.VersionedUrl | src/app/api/upload/route.ts:109-133 | `.../upload/v<digits>/<p>.<ext>` gives `p` |
| UploadRoute.AgreeOnVersionedUrl | src/app/api/upload/route.ts:109-133 | on versioned URLs the server and the client hook extract the same id |
| UploadRoute.TransformedUrl | src/app/api/upload/route.ts:117-120 | a transformation segment is not stripped: `.../upload/<t>/<p>.<ext>` gives `t/p` |
| UploadRoute.TransformedPath | src/app/api/upload/route.ts:117-120 | a first path segment that is not a version stays in the id, and only the extension after the last `.` is cut |
| UploadRoute.DisagreeOnTransformedUrl | src/app/api/upload/route.ts:117-120 | on a transformed URL the server keeps `t/p` where the client hook gives `p` |
| UploadRoute.DotNameUrl | src/app/api/upload/route.ts:123-126 | `.../upload/.ext` gives `.ext` on the server and the empty id in the client hook |
| UploadRoute.Post | src/app/api/upload/route.ts:11-73 | no file gives 400 with no deletion and no upload; the old image is destroyed exactly when a file came, `oldImageUrl` is non-empty and a non-empty id comes out of it; the reply is the upload's URL and id, or 500 when the upload failed |
| UploadRoute.PostReplyIgnoresOldImage | src/app/api/upload/route.ts:28-39 | the old image never changes the reply |
| UploadRoute.Delete | src/app/api/upload/route.ts:75-107 | 400 without calling destroy exactly when the URL is missing or empty or gives no non-empty id, with the message "Invalid image URL" in the latter case; otherwise destroy is called on that id and the reply depends on its success |
| UploadRoute.DeleteWithoutUpload | src/app/api/upload/route.ts:87-93 | a URL without an `upload` segment gives 400 and destroys nothing |
| ImageUtils.IsCloudinaryUrl | src/lib/image-utils.ts:22-24 | holds exactly when the URL contains `cloudinary.com`; the second test adds nothing |
| ImageUtils.EndsWithAny | src/lib/image-utils.ts:9-16 | holds exactly when some listed suffix ends the text |
| ImageUtils.IsValidImageUrl | src/lib/image-utils.ts:5-20 | false when the URL does not parse; otherwise true exactly when the lower-cased pathname ends with one of `.jpg .jpeg .png .gif .webp .bmp` |
| ImageUtils.ValidImageUrlIgnoresCase | src/lib/image-utils.ts:8 | the test gives the same answer on a pathname and on its lower-cased form |
| ImageUtils.UpperCaseExtensionAccepted | src/lib/image-utils.ts:8-12 | a pathname ending in `.PNG` is accepted |
| ClientAdminProducts.SliceKeepsShape | client/src/pages/admin/products.tsx:252 | a slice of a slug-alphabet text without `--` keeps both properties |
| ClientAdminProducts.DropLeadingFacts | client/src/pages/admin/products.tsx:252 | dropping a leading `-` leaves a text that does not start with `-` and keeps the alphabet and no `--` |
| ClientAdminProducts.DropTrailingFacts | client/src/pages/admin/products.tsx:252 | dropping a trailing `-` then leaves a clean slug |
| ClientAdminProducts.GenerateSlug | client/src/pages/admin/products.tsx:251-253 | the slug uses only `a-z`, `0-9` and `-`, never holds `--` and never starts or ends with `-` |
| ClientAdminProducts.GenerateSlugIdempotent | client/src/pages/admin/products.tsx:251-253 | slugging a slug changes nothing |
| ClientAdminProducts.DropLeadingKeeps | client/src/pages/admin/products.tsx:252 | dropping an edge hyphen keeps every letter and digit |
| ClientAdminProducts.DropTrailingKeeps | client/src/pages/admin/products.tsx:252 | dropping an edge hyphen keeps every letter and digit |
| ClientAdminProducts.GenerateSlugKeepsAlnum | client/src/pages/admin/products.tsx:251-253 | the slug's letters and digits are exactly those of the lower-cased name, in order: only separators change |
| ClientAdminProducts.EditForm | client/src/pages/admin/products.tsx:200-213 | a missing description, original price or specification becomes empty, the category id becomes its decimal text, a missing or empty rating becomes `0`, a falsy stock or featured flag becomes false; name, slug, price, brand and image are copied |
| ClientAdminProducts.SubmittedCategoryId | client/src/pages/admin/products.tsx:230-233 | an empty category id is left out; any other is `Number()` of it |
| ClientAdminProducts.EditFormKeepsCategory | client/src/pages/admin/products.tsx:200-233 | editing and resubmitting a product sends its own category id back |
| ClientAdminProducts.TracksUpload | client/src/pages/admin/products.tsx:402-416 | a URL is tracked for cleanup only when it is a non-empty Cloudinary URL and, while editing, differs from the original image; when creating, every such URL is tracked |
| ClientAdminProducts.CloseDeletes | client/src/pages/admin/products.tsx:164-188 | closing deletes only the tracked upload, only when it is a non-empty Cloudinary URL, and when editing only when it differs from the original |
| ClientAdminProducts.CloseDeletesTracked | client/src/pages/admin/products.tsx:164-188 | everything the image handler tracks is deleted on close: the two conditions agree |
| ClientAdminProducts.ReplacedImage | client/src/pages/admin/products.tsx:93-103 | after an update the old image is deleted exactly when the product is known, its image is non-empty, differs from the new one and is a Cloudinary URL |
| ClientAdminProducts.UpdateDeletes | client/src/pages/admin/products.tsx:93-103 | a deletion names the image of the listed product with that id; it is never the new URL and always a Cloudinary one; an unknown id deletes nothing |
| ClientAdminProducts.UnchangedImageKept | client/src/pages/admin/products.tsx:99-101 | an update that keeps the image deletes nothing |
| ClientAdminProducts.ProductDialog.constructor | client/src/pages/admin/products.tsx:22-39 | closed dialog, no product being edited, empty form and no tracked image |
| ClientAdminProducts.ProductDialog.ResetForm | client/src/pages/admin/products.tsx:144-162 | the form is the default one (rating `0`, in stock, not featured, other fields empty) and the three tracking fields are cleared |
| ClientAdminProducts.ProductDialog.AddProductClicked | client/src/pages/admin/products.tsx:288 | the default form with nothing edited and nothing tracked |
| ClientAdminProducts.ProductDialog.HandleNameChange | client/src/pages/admin/products.tsx:255-261 | the name is set and the slug always regenerated from it, also while editing; no other field changes |
| ClientAdminProducts.ProductDialog.OnImageChange | client/src/pages/admin/products.tsx:402-416 | the form's image becomes the URL; the cleanup field takes it exactly when it is to be tracked and is kept otherwise; the cleanup invariant holds |
| ClientAdminProducts.ProductDialog.HandleEdit | client/src/pages/admin/products.tsx:196-215 | the product is remembered with its image as the original, nothing is tracked, the form is its edit form and the dialog opens |
| ClientAdminProducts.ProductDialog.HandleDialogClose | client/src/pages/admin/products.tsx:164-194 | opening changes nothing else; closing deletes exactly the tracked upload, if any, resets the form and forgets the edited product |
| ClientAdminProducts.ProductDialog.HandleSubmit | client/src/pages/admin/products.tsx:217-239 | nothing is sent while an image uploads; otherwise a create, or an update of the edited product's id, with the category id converted |
| ClientAdminProducts.ProductDialog.CreateSucceeded | client/src/pages/admin/products.tsx:78-84 | the dialog closes with the default form and nothing tracked |
| ClientAdminProducts.ProductDialog.UpdateSucceeded | client/src/pages/admin/products.tsx:107-114 | as after a create, and no product is being edited |
| ClientAdminProducts.ProductDialog.SetImageUploading | client/src/pages/admin/products.tsx:417 | the upload flag follows the image field |
| LegacyAdminProducts.UpdateIdRoundTrip | client/src/pages/admin-products.tsx:151 | the id text sent in an update parses back to the product's id |
| LegacyAdminProducts.ProductEditor.constructor | client/src/pages/admin-products.tsx:19-34 | closed dialog, nothing edited, the default form |
| LegacyAdminProducts.ProductEditor.ResetForm | client/src/pages/admin-products.tsx:111-126 | the form is exactly its initial value |
| LegacyAdminProducts.ProductEditor.AddProductClicked | client/src/pages/admin-products.tsx:203 | the default form with nothing edited |
| LegacyAdminProducts.ProductEditor.SetDialogOpen | client/src/pages/admin-products.tsx:201 | the dialog flag follows the request, nothing else changes |
| LegacyAdminProducts.ProductEditor.HandleNameChange | client/src/pages/admin-products.tsx:167-177 | name and derived slug change together, and the slug is clean |
| LegacyAdminProducts.ProductEditor.HandleEdit | client/src/pages/admin-products.tsx:128-145 | the product is remembered, the form gets its defaults-filled fields and the dialog opens |
| LegacyAdminProducts.ProductEditor.HandleSubmit | client/src/pages/admin-products.tsx:147-155 | an update of the edited product's id when editing, otherwise a create; the form is sent unconverted |
| LegacyAdminProducts.ProductEditor.CreateSucceeded | client/src/pages/admin-products.tsx:67-72 | the dialog closes and the form resets |
| LegacyAdminProducts.ProductEditor.UpdateSucceeded | client/src/pages/admin-products.tsx:84-90 | the dialog closes, nothing is edited and the form resets |
| NextAdminProducts.PriceBucketsPartition | src/app/admin/products/page.tsx:111-123 | an unparseable price is in no bucket; any parsed price is in exactly one of the four buckets |
| NextAdminProducts.SearchStep | src/app/admin/products/page.tsx:83-90 | the search stage keeps the products whose name, brand or slug contains the lower-cased term, and only when a term is given |
| NextAdminProducts.FilterBySearch | src/app/admin/products/page.tsx:83-90 | given the products that passed the earlier stages, it returns those that pass this stage too; it filters only when the search term is set and otherwise passes the list on unchanged |
| NextAdminProducts.CategoryStep | src/app/admin/products/page.tsx:93-99 | the category stage acts only on a non-empty list and keeps the products whose category id (`_id` or the raw id) is listed |
| NextAdminProducts.FilterByCategory | src/app/admin/products/page.tsx:93-99 | given the products that passed the earlier stages, it returns those that pass this stage too; it filters only when the category list is set and otherwise passes the list on unchanged |
| NextAdminProducts.BrandStep | src/app/admin/products/page.tsx:102-106 | the brand stage acts only on a non-empty list and keeps the products whose brand is listed |
| NextAdminProducts.FilterByBrand | src/app/admin/products/page.tsx:102-106 | given the products that passed the earlier stages, it returns those that pass this stage too; it filters only when the brand list is set and otherwise passes the list on unchanged |
| NextAdminProducts.PriceStep | src/app/admin/products/page.tsx:109-125 | the price stage acts only when a range is given and keeps the products whose comma-free `parseInt` price is in the bucket; an unknown range keeps everything |
| NextAdminProducts.FilterByPrice | src/app/admin/products/page.tsx:109-125 | given the products that passed the earlier stages, it returns those that pass this stage too; it filters only when the price range is set and otherwise passes the list on unchanged |
| NextAdminProducts.StockStep | src/app/admin/products/page.tsx:128-132 | `in-stock` keeps stocked products and any other non-empty value keeps the others |
| NextAdminProducts.FilterByStock | src/app/admin/products/page.tsx:128-132 | given the products that passed the earlier stages, it returns those that pass this stage too; it filters only when the stock status is set and otherwise passes the list on unchanged |
| NextAdminProducts.FeaturedStep | src/app/admin/products/page.tsx:135-139 | `featured` keeps featured products and any other non-empty value keeps the others |
| NextAdminProducts.FilterByFeatured | src/app/admin/products/page.tsx:135-139 | given the products that passed the earlier stages, it returns those that pass this stage too; it filters only when the featured status is set and otherwise passes the list on unchanged |
| NextAdminProducts.StageBounds | src/app/admin/products/page.tsx:79-141 | before the first stage nothing is removed; after the last, exactly the products passing every active test remain |
| NextAdminProducts.PassesFilterFacts | src/app/admin/products/page.tsx:79-141 | a product is kept exactly when it passes every active test; the result keeps the input order; with no filter set it is the whole list |
| NextAdminProducts.ApplyFilters | src/app/admin/products/page.tsx:79-142 | each stage, applied in turn, keeps exactly the products passing every active test, in order; with no filter it returns the products |
| NextAdminProducts.BrandNamesStep | src/app/admin/products/page.tsx:170-175 | visiting one more product adds its brand to the collected names exactly when the names do not hold it yet |
| NextAdminProducts.UniqueBrandNames | src/app/admin/products/page.tsx:168-177 | every product's brand appears exactly once, in order of first occurrence, and no other name appears |
| NextAdminProducts.BrandNamesMembers | src/app/admin/products/page.tsx:168-177 | a name is collected exactly when some fetched product has it as its brand |
| NextAdminProducts.SlugSource | src/app/admin/products/page.tsx:316-318 | after lower-casing and dropping, only word characters and spaces remain, none upper case and no `-` |
| NextAdminProducts.SpacesToHyphens | src/app/admin/products/page.tsx:319-320 | each run of spaces becomes one `-`; the result uses only `a-z 0-9 _ -`, has no `--`, and the final `trim` changes nothing |
| NextAdminProducts.GenerateSlug | src/app/admin/products/page.tsx:315-321 | the slug uses only `a-z`, `0-9`, `_` and `-` and never holds `--` |
| NextAdminProducts.GenerateSlugKeepsWordChars | src/app/admin/products/page.tsx:315-321 | apart from hyphens, the slug's characters are exactly the word characters of the lower-cased name, in order |
| NextAdminProducts.SpacedWordsSource | src/app/admin/products/page.tsx:318 | two words joined by a space pass the dropping step unchanged |
| NextAdminProducts.SpacedWordsDashed | src/app/admin/products/page.tsx:319 | the space between two words becomes one `-` |
| NextAdminProducts.SpacedWordsSlug | src/app/admin/products/page.tsx:315-321 | `a b` becomes `a-b` |
| NextAdminProducts.HyphenatedWordsSlug | src/app/admin/products/page.tsx:318 | an existing hyphen is dropped: `a-b` becomes `ab` |
| NextAdminProducts.GenerateSlugNotIdempotent | src/app/admin/products/page.tsx:315-321 | slugging a slug with a hyphen changes it, so unlike the Vite client's generator this one is not idempotent |
| NextAdminProducts.EditForm | src/app/admin/products/page.tsx:244-259 | missing optional texts become empty, the category is its `_id` or raw id, and the other fields are copied |
| NextAdminProducts.SetTextKeepsSlug | src/app/admin/products/page.tsx:333-334 | editing any text field but the slug keeps the slug |
| NextAdminProducts.SubmitRequest | src/app/admin/products/page.tsx:210-231 | nothing is sent exactly when the image is empty; otherwise the form goes to `PUT /api/admin/products/<id>` when editing and to `POST /api/admin/products` when creating |
| NextAdminProducts.DeleteEffects | src/app/admin/products/page.tsx:264-296 | the product is deleted exactly when confirmed; its image is deleted only after a confirmed and successful delete, only when the first product with that id has a non-empty Cloudinary image, and then it is that image |
| NextAdminProducts.ProductsPage.constructor | src/app/admin/products/page.tsx:43-65 | no products, no filters, closed dialog, the default form |
| NextAdminProducts.ProductsPage.ProductsLoaded | src/app/admin/products/page.tsx:160-178 | the loaded products are shown unfiltered, and the brand list is their unique brands |
| NextAdminProducts.ProductsPage.SetFilters | src/app/admin/products/page.tsx:51 | the filter state becomes what the panel emitted |
| NextAdminProducts.ProductsPage.FilterEffect | src/app/admin/products/page.tsx:75-77 | the shown products become the filtered list of the products under the current filters |
| NextAdminProducts.ProductsPage.ResetForm | src/app/admin/products/page.tsx:298-313 | the form becomes the default form |
| NextAdminProducts.ProductsPage.AddProductClicked | src/app/admin/products/page.tsx:456-461 | the default form, nothing edited, the dialog open |
| NextAdminProducts.ProductsPage.CancelClicked | src/app/admin/products/page.tsx:649-654 | the default form, nothing edited, the dialog closed |
| NextAdminProducts.ProductsPage.HandleEdit | src/app/admin/products/page.tsx:244-262 | the product is remembered, the form is its edit form, the dialog opens |
| NextAdminProducts.ProductsPage.HandleTextChange | src/app/admin/products/page.tsx:323-341 | the field takes the value; the slug is regenerated exactly when the name changes and nothing is being edited; the slug changes only then or when it is the field edited |
| NextAdminProducts.ProductsPage.HandleCheckboxChange | src/app/admin/products/page.tsx:330-332 | only the checkbox's own flag changes |
| NextAdminProducts.ProductsPage.HandleSubmit | src/app/admin/products/page.tsx:210-231 | the request the form and the edited product call for |
| NextAdminProducts.ProductsPage.SaveSucceeded | src/app/admin/products/page.tsx:233-238 | the default form, nothing edited, the dialog closed |
| AdminCategories.SlugSource | src/app/admin/categories/page.tsx:65-66 | after lower-casing and dropping, only `a-z`, `0-9`, space and `-` remain |
| AdminCategories.SpacesToHyphens | src/app/admin/categories/page.tsx:67 | after whitespace runs become `-`, only `a-z`, `0-9` and `-` remain |
| AdminCategories.WhitespaceRunsAreSpaceRuns | src/app/admin/categories/page.tsx:66-67 | on the name as it stands after the character filter, turning whitespace runs into `-` gives the same slug as turning space runs into `-` |
| AdminCategories.MergedHyphens | src/app/admin/categories/page.tsx:68-69 | after hyphen runs merge there is no `--`, and the final `trim` changes nothing |
| AdminCategories.GenerateSlug | src/app/admin/categories/page.tsx:63-70 | the slug uses only `a-z`, `0-9` and `-` and never holds `--` |
| AdminCategories.SlugSourceOfClean | src/app/admin/categories/page.tsx:66 | a clean slug passes the dropping step unchanged |
| AdminCategories.SpacesToHyphensOfClean | src/app/admin/categories/page.tsx:67 | a clean slug passes the whitespace step unchanged |
| AdminCategories.MergedHyphensOfClean | src/app/admin/categories/page.tsx:68 | a clean slug passes the hyphen-merging step unchanged |
| AdminCategories.GenerateSlugIdempotent | src/app/admin/categories/page.tsx:63-70 | slugging a slug changes nothing |
| AdminCategories.LeadingHyphenKept | src/app/admin/categories/page.tsx:63-70 | a name starting with a space or `-` gives a slug starting with `-`: edge hyphens are not removed |
| AdminCategories.SpacedHyphenSource | src/app/admin/categories/page.tsx:66 | `a - b` passes the dropping step unchanged |
| AdminCategories.SpacedHyphenTail | src/app/admin/categories/page.tsx:67 | ` - b` becomes `---b` |
| AdminCategories.SpacedHyphenDashed | src/app/admin/categories/page.tsx:67 | `a - b` becomes `a---b` |
| AdminCategories.TripleHyphenMerged | src/app/admin/categories/page.tsx:68 | `a---b` becomes `a-b` |
| AdminCategories.SpacedHyphenSlug | src/app/admin/categories/page.tsx:63-70 | spaces and an existing hyphen merge into one: `a - b` becomes `a-b` |
| AdminCategories.SubmittedSlug | src/app/admin/categories/page.tsx:81-84 | a non-empty slug is sent as typed; an empty one is replaced by a clean slug of the name |
| AdminCategories.SubmittedSlugOfEmpty | src/app/admin/categories/page.tsx:83 | an empty slug becomes the name's slug, and submitting that again keeps it |
| AdminCategories.SubmitRequest | src/app/admin/categories/page.tsx:72-92 | `PUT /api/admin/categories/<id>` exactly when editing, `POST /api/admin/categories` exactly when creating; the body carries the form's name and description and the submitted slug |
| AdminCategories.DeleteRequest | src/app/admin/categories/page.tsx:119-127 | a DELETE of that category's URL exactly when confirmed |
| AdminCategories.CategoriesPage.constructor | src/app/admin/categories/page.tsx:19-25 | closed dialog, nothing edited, empty form |
| AdminCategories.CategoriesPage.AddCategoryClicked | src/app/admin/categories/page.tsx:172-177 | the dialog opens on an empty form with nothing edited |
| AdminCategories.CategoriesPage.CancelClicked | src/app/admin/categories/page.tsx:330-334 | the dialog closes on an empty form with nothing edited |
| AdminCategories.CategoriesPage.HandleEdit | src/app/admin/categories/page.tsx:109-117 | the category is remembered, the form gets its fields with a missing description as empty, the dialog opens |
| AdminCategories.CategoriesPage.HandleNameChange | src/app/admin/categories/page.tsx:141-147 | the name is set; a non-empty slug is kept, and an empty one becomes the name's slug |
| AdminCategories.CategoriesPage.HandleSlugChange | src/app/admin/categories/page.tsx:302-303 | only the slug changes |
| AdminCategories.CategoriesPage.HandleDescriptionChange | src/app/admin/categories/page.tsx:316-320 | only the description changes |
| AdminCategories.CategoriesPage.HandleSubmit | src/app/admin/categories/page.tsx:72-92 | the request the form and the edited category call for |
| AdminCategories.CategoriesPage.SubmitCompleted | src/app/admin/categories/page.tsx:94-106 | on success the dialog closes, nothing is edited and the form is empty; on failure nothing changes |
| Selections.ToggleUnique | src/app/components/admin/admin-product-filters.tsx:42-50 | checking adds the id and keeps every selected one; unchecking removes every copy of it and keeps the others; nothing else enters |
| Selections.ToggleUniqueKeepsNoDuplicates | src/app/components/admin/admin-product-filters.tsx:46-47 | a duplicate-free selection stays duplicate-free |
| Selections.ToggleUniqueUndo | src/app/components/admin/admin-product-filters.tsx:42-53 | checking and then unchecking an id that was not selected restores the selection |
| Selections.ToggleAppend | src/app/components/admin/admin-product-filters.tsx:60-64 | checking appends the item at the end, keeping the earlier list as it was; unchecking removes every copy and keeps the rest |
| Selections.ToggleAppendDuplicates | src/app/components/admin/admin-product-filters.tsx:61-62 | checking a selected brand again lists it twice |
| Selections.ToggleAppendUndo | src/app/components/admin/admin-product-filters.tsx:60-64 | one uncheck after a check removes every copy of the brand |
| AdminProductFilters.FilterPanel.constructor | src/app/components/admin/admin-product-filters.tsx:31 | the panel starts from the page's filters |
| AdminProductFilters.FilterPanel.SyncFromParent | src/app/components/admin/admin-product-filters.tsx:33-35 | new page filters replace the local ones |
| AdminProductFilters.FilterPanel.HandleSearchChange | src/app/components/admin/admin-product-filters.tsx:37-40 | only the search key changes |
| AdminProductFilters.FilterPanel.HandleCategoryChange | src/app/components/admin/admin-product-filters.tsx:42-53 | only the category list changes: the id is checked exactly as asked, every other id keeps its state, and the list stays duplicate-free |
| AdminProductFilters.FilterPanel.HandlePriceRangeChange | src/app/components/admin/admin-product-filters.tsx:55-58 | only the price range changes |
| AdminProductFilters.FilterPanel.HandleBrandChange | src/app/components/admin/admin-product-filters.tsx:60-67 | only the brand list changes, by an append or a remove-all |
| AdminProductFilters.FilterPanel.HandleStockStatusChange | src/app/components/admin/admin-product-filters.tsx:69-72 | only the stock status changes |
| AdminProductFilters.FilterPanel.HandleFeaturedChange | src/app/components/admin/admin-product-filters.tsx:74-77 | only the featured key changes |
| AdminProductFilters.FilterPanel.ApplyFilters | src/app/components/admin/admin-product-filters.tsx:79-81 | the local filters are emitted unchanged, and nothing changes |
| AdminProductFilters.FilterPanel.ClearFilters | src/app/components/admin/admin-product-filters.tsx:83-87 | the local filters become empty and the empty filters are emitted |
| NextProductFilters.FilterPanel.constructor | src/app/components/product/product-filters.tsx:37 | the panel starts from the page's filters |
| NextProductFilters.FilterPanel.SyncFromParent | src/app/components/product/product-filters.tsx:39-41 | new page filters replace the local ones |
| NextProductFilters.FilterPanel.HandleCategoryChange | src/app/components/product/product-filters.tsx:43-54 | only the category list changes: the id is checked exactly as asked, every other id keeps its state, and the list stays duplicate-free |
| NextProductFilters.FilterPanel.HandlePriceRangeChange | src/app/components/product/product-filters.tsx:56-59 | only the price range changes |
| NextProductFilters.FilterPanel.HandleBrandChange | src/app/components/product/product-filters.tsx:61-68 | only the brand list changes, by an append or a remove-all |
| NextProductFilters.FilterPanel.ApplyFilters | src/app/components/product/product-filters.tsx:70-72 | the local filters are emitted unchanged |
| NextProductFilters.FilterPanel.ClearFilters | src/app/components/product/product-filters.tsx:74-78 | the local filters become empty and the empty filters are emitted |
| ClientProductFilters.PreselectedCategory | client/src/components/product/product-filters.tsx:31-43 | a category is preselected only when the page's category text is its slug, and it is the first loaded category with that slug; whenever a loaded category has that non-empty slug, one is preselected |
| ClientProductFilters.SelectedSlugsFacts | client/src/components/product/product-filters.tsx:76-78 | the slugs sent are exactly those of the loaded categories whose id is selected, in loaded order; none exactly when no loaded category is selected |
| ClientProductFilters.SentFilters | client/src/components/product/product-filters.tsx:71-84 | only the `category` key may differ from the local filters; with no id selected or no category loaded it is the empty list |
| ClientProductFilters.SentCategoryFacts | client/src/components/product/product-filters.tsx:75-79 | with selected ids that match, `category` is their slug list; when none matches, the local filters are sent unchanged |
| ClientProductFilters.FilterPanel.constructor | client/src/components/product/product-filters.tsx:16-18 | the panel starts from the page's filters |
| ClientProductFilters.FilterPanel.SyncFromParent | client/src/components/product/product-filters.tsx:27-29 | new page filters replace the local ones |
| ClientProductFilters.FilterPanel.PreselectCategory | client/src/components/product/product-filters.tsx:31-43 | when a category is preselected the local filters select only its id and carry its slug; otherwise they are unchanged |
| ClientProductFilters.FilterPanel.HandleCategoryChange | client/src/components/product/product-filters.tsx:45-55 | only the id list changes: the id is checked exactly as asked and the list stays duplicate-free |
| ClientProductFilters.FilterPanel.HandlePriceRangeChange | client/src/components/product/product-filters.tsx:57-60 | only the price range changes |
| ClientProductFilters.FilterPanel.HandleBrandChange | client/src/components/product/product-filters.tsx:62-69 | only the brand list changes, by an append or a remove-all |
| ClientProductFilters.FilterPanel.ApplyFilters | client/src/components/product/product-filters.tsx:71-84 | the filters sent are the local ones with the category ids mapped to slugs |
| ClientProductFilters.FilterPanel.ClearFilters | client/src/components/product/product-filters.tsx:86-90 | the local filters become empty and the empty filters are emitted |
| Sorting.Difference | src/app/products/page.tsx:196 | the difference of two numbers, and `0` (what `sort` makes of `NaN`) when either is `NaN` |
| Sorting.InsertPermutes | src/app/products/page.tsx:193 | inserting adds exactly the element |
| Sorting.SortPermutes | src/app/products/page.tsx:193-210 | sorting rearranges and neither adds nor drops |
| Sorting.InsertSorted | src/app/products/page.tsx:193-210 | inserting into a list sorted by a key, with a comparator that is the key difference, keeps it sorted |
| Sorting.SortOrdersByKey | src/app/products/page.tsx:193-210 | a comparator that is a key difference sorts by that key, ascending |
| Sorting.SortAllTies | src/app/products/page.tsx:193-210 | a comparator that ties on every pair leaves the list in its original order, as a stable sort must |
| Sorting.InsertBetween | src/app/products/page.tsx:193-210 | an element ranked after a prefix and no later than what follows it is inserted exactly between the two |
| Sorting.SortPartitions | src/app/products/page.tsx:193-210 | for a two-class comparator the result is the first class in input order followed by the second class in input order (stability) |
| Paging.RelativeIndex | src/app/products/page.tsx:213-216 | `slice`'s index clamping: a non-negative index is capped at the length, a negative one counts from the end and stops at 0 |
| Paging.Slice | src/app/products/page.tsx:213-216 | `slice(start, end)` with `0 <= start <= end` is the clamped sub-range |
| Paging.Page | src/app/products/page.tsx:213-216 | page `p` holds the items at positions `(p-1)*12` up to `p*12`, clamped, so at most twelve |
| Paging.TotalPages | src/app/products/page.tsx:218 | the least page count whose pages of twelve hold every item: `ceil(n/12)` |
| Paging.FirstPage | src/app/products/page.tsx:213-216 | the first page is the first `min(12, n)` items |
| Paging.PageNonEmptyIff | src/app/products/page.tsx:213-218 | a page has items exactly when its number is at most the page count |
| Paging.PagesPrefix | src/app/products/page.tsx:213-216 | pages 1 to k concatenated are the first `min(12k, n)` items |
| Paging.PagesCover | src/app/products/page.tsx:213-218 | pages 1 to `totalPages` concatenated are the whole sorted list |
| NextProductsPage.PriceRangesFacts | src/app/products/page.tsx:157-174 | every price is in some menu range; 10000 is in both `25-100` and `100-500`; a `NaN` price passes every range; an unknown range keeps everything |
| NextProductsPage.FilteredProducts | src/app/products/page.tsx:130-190 | a product is kept exactly when it passes every active criterion (search over name, brand and a missing-as-empty description; categories; brands; price range; exact stock and featured values), in the fetched order |
| NextProductsPage.FilteredProductsFacts | src/app/products/page.tsx:130-190 | with no criterion nothing is removed, and the URL's `category` key never changes the result |
| NextProductsPage.SortedProducts | src/app/products/page.tsx:193-210 | the sorted list is a permutation of the filtered one |
| NextProductsPage.PriceOrders | src/app/products/page.tsx:195-198 | with parseable prices, `price-low` is non-decreasing and `price-high` non-increasing in price |
| NextProductsPage.NewestOrder | src/app/products/page.tsx:199-203 | with valid dates, `newest` is non-increasing in time |
| NextProductsPage.MissingRatingIsZero | src/app/products/page.tsx:205 | a missing or empty rating counts as 0 |
| NextProductsPage.RatingOrder | src/app/products/page.tsx:204-205 | with parseable ratings, `rating` is non-increasing |
| NextProductsPage.FeaturedOrder | src/app/products/page.tsx:206-208 | under `featured` or any unknown key every featured product comes before every other |
| NextProductsPage.FeaturedStable | src/app/products/page.tsx:206-208 | under `featured` or any unknown key the listing is the featured products in their filtered order, then the others in theirs |
| NextProductsPage.UrlFilters | src/app/products/page.tsx:69-75 | the URL sets `search` and `category` exactly when they are non-empty, and no other key |
| NextProductsPage.ProductsContent.constructor | src/app/products/page.tsx:59-66 | no products, no filters, sorted by `featured`, on page 1 |
| NextProductsPage.ProductsContent.Sorted | src/app/products/page.tsx:193-210 | the page's sorted list is a permutation of its filtered products, so exactly the products that pass |
| NextProductsPage.ProductsContent.Paginated | src/app/products/page.tsx:213-216 | at most twelve, the current page's range of the sorted list |
| NextProductsPage.ProductsContent.ParseUrl | src/app/products/page.tsx:69-75 | the filters become those the URL gives |
| NextProductsPage.ProductsContent.ProductsLoaded | src/app/products/page.tsx:89-98 | the products become the fetched ones |
| NextProductsPage.ProductsContent.HandleFiltersChange | src/app/products/page.tsx:124-127 | the filters are replaced and the page goes back to 1 |
| NextProductsPage.ProductsContent.SetSortBy | src/app/products/page.tsx:276 | the sort key becomes the chosen one |
| NextProductsPage.ProductsContent.PreviousPage | src/app/products/page.tsx:311-318 | one page back, never below 1 because the button is disabled on page 1 |
| NextProductsPage.ProductsContent.GoToPage | src/app/products/page.tsx:320-346 | the page becomes one of the numbered buttons (the first five, or the last) |
| NextProductsPage.ProductsContent.NextPage | src/app/products/page.tsx:348-355 | one page forward, only while not on the last page |
| ClientProductsPage.KeptByPriceRangeAsWritten | client/src/pages/products.tsx:52-67 | the price switch as written: `under-25` and `25-100` keep exactly the prices in range, while `100-500` and `over-500` fall through to the end and keep every product |
| ClientProductsPage.FallThroughKeepsCheapProduct | client/src/pages/products.tsx:61-66 | a product priced 5 passes the `over-500` range as written; the corrected range rejects it |
| ClientProductsPage.KeptByPriceRange | client/src/pages/products.tsx:52-67 | corrected price test: each of the four ranges keeps exactly the prices inside its bounds; an unparsable price or an unknown range keeps the product |
| ClientProductsPage.KeptByCategoryAsWritten | client/src/pages/products.tsx:73-77 | the category test as written: a slug text keeps a product only when it belongs to the first category with that slug (or no category has it); a list of slugs never matches a slug, so it keeps every product |
| ClientProductsPage.SelectedCategoryIgnored | client/src/pages/products.tsx:73-77 | with the list of slugs the filter panel sends, a product outside the one selected category still passes as written, and fails the corrected test |
| ClientProductsPage.KeptByCategory | client/src/pages/products.tsx:73-77 | corrected category test: a non-empty list of slugs keeps exactly the products in one of the listed categories; everything else behaves as written |
| ClientProductsPage.SelectionKeepsSelectedCategories | client/src/pages/products.tsx:73-77 | for the slugs of checked category ids, the corrected test keeps exactly the products whose category is checked |
| ClientProductsPage.CorrectionsAgreeElsewhere | client/src/pages/products.tsx:50-79 | on filters that use neither of the broken cases, the corrected filter and the one as written agree |
| ClientProductsPage.FilteredProducts | client/src/pages/products.tsx:50-79 | the filtered list holds exactly the products that pass the corrected filter (`Passes`), in their original order |
| ClientProductsPage.FeaturedFirstAsWritten | client/src/pages/products.tsx:92 | the default comparator as written looks only at its second argument: `1` when it is featured, `-1` otherwise |
| ClientProductsPage.FeaturedComparatorInconsistent | client/src/pages/products.tsx:92 | as written, two featured products are each ordered after the other, and a product does not compare equal to itself |
| ClientProductsPage.FeaturedFirst | client/src/pages/products.tsx:92 | corrected default comparator: the difference of the featured keys, featured before not featured |
| ClientProductsPage.SortedProducts | client/src/pages/products.tsx:81-94 | sorting under any sort key rearranges the filtered products without adding or dropping any |
| ClientProductsPage.FeaturedOrder | client/src/pages/products.tsx:91-92 | under the default sort key, no featured product comes after a product that is not featured |
| ClientProductsPage.FeaturedStable | client/src/pages/products.tsx:91-92 | under the corrected default sort the listing is the featured products in their filtered order, then the others in theirs |
| ClientProductsPage.PriceOrders | client/src/pages/products.tsx:83-86 | with parsable prices, `price-low` orders ascending and `price-high` descending by price |
| ClientProductsPage.NewestOrder | client/src/pages/products.tsx:87-88 | `newest` orders by creation time, latest first |
| ClientProductsPage.RatingOrder | client/src/pages/products.tsx:89-90 | with parsable ratings, `rating` orders by rating, highest first |
| ClientProductsPage.UrlFilters | client/src/pages/products.tsx:23-29 | the URL sets only `search` and `category`, each only when non-empty, and the category as a single slug |
| ClientProductsPage.Shown | client/src/pages/products.tsx:96-99 | the page shows the first twelve sorted products (all of them when fewer), each one in the catalogue and passing the corrected filter |
| ClientProductsPage.PageCount | client/src/pages/products.tsx:101 | the page count is the number of products passing the corrected filter divided by twelve, rounded up, and is at least 1 exactly when the shown page is not empty |
| ClientImageUpload.ValidateFile | client/src/components/ui/image-upload.tsx:49-72 | a file is accepted exactly when its type starts with `image/` and its size is at most `maxSizeInMB` megabytes |
| ClientImageUpload.ValidateFileMonotone | client/src/components/ui/image-upload.tsx:61-62 | a file accepted under a size limit is accepted under every larger limit |
| ClientImageUpload.DefaultLimitBoundary | client/src/components/ui/image-upload.tsx:28-62 | under the default limit of 5 MB an image of exactly 5 MiB is accepted and one byte more is refused |
| ClientImageUpload.ReplacedUpload | client/src/components/ui/image-upload.tsx:88-90 | the earlier image is deleted exactly when it is non-empty, differs from the new upload and was itself uploaded |
| ClientImageUpload.ImageUpload.constructor | client/src/components/ui/image-upload.tsx:33-35 | the field opens on the given image, or empty, not marked as uploaded |
| ClientImageUpload.ImageUpload.HandleFileSelect | client/src/components/ui/image-upload.tsx:74-111 | a refused file changes nothing; a successful upload deletes the replaced upload, reports the new URL and marks it uploaded; a failed one restores the earlier image and forgets that it was an upload; after a successful upload the URL input (its `disabled` test at line 269) is disabled |
| ClientImageUpload.ImageUpload.HandleUrlChange | client/src/components/ui/image-upload.tsx:140-145 | a typed URL becomes the image, is reported to the page and is not marked as uploaded, so the URL input (line 269) stays enabled |
| ClientImageUpload.ImageUpload.ClearImage | client/src/components/ui/image-upload.tsx:147-160 | clearing deletes the image exactly when it was uploaded, reports the empty image and leaves nothing marked, which enables the URL input (line 269) again |
| NextImageUpload.FileError | src/app/components/ui/image-upload.tsx:75-83 | a file draws no error exactly when the client field's check with a 5 MB limit accepts it; otherwise the error names the failed check |
| NextImageUpload.ImageUpload.constructor | src/app/components/ui/image-upload.tsx:24-29 | the field opens in URL mode exactly when its image is non-empty and not a Cloudinary URL, with no upload running and no error |
| NextImageUpload.ImageUpload.StartUpload | src/app/components/ui/image-upload.tsx:74-104 | a refused file only shows its error; replacing a typed URL needs confirmation; otherwise the upload starts with the error cleared and names the replaced upload, when there is one, for deletion |
| NextImageUpload.ImageUpload.UploadSettled | src/app/components/ui/image-upload.tsx:111-123 | a successful upload makes its URL the image and leaves URL mode; a failed one keeps the image and shows the failure; either way the upload ends |
| NextImageUpload.ImageUpload.HandleRemoveImage | src/app/components/ui/image-upload.tsx:150-162 | an upload is deleted and cleared once its DELETE answers; any other image is cleared at once and URL mode ends |
| NextImageUpload.ImageUpload.RemovalSettled | src/app/components/ui/image-upload.tsx:153-161 | when a pending DELETE answers, the image is cleared and URL mode ends |
| NextImageUpload.ImageUpload.HandleUrlChange | src/app/components/ui/image-upload.tsx:126-148 | as written: typing over an upload needs confirmation and then starts its removal without awaiting it; the typed URL becomes the image and an invalid non-empty URL shows an error |
| NextImageUpload.ConfirmedUrlErased | src/app/components/ui/image-upload.tsx:130-140 | a confirmed URL typed over an upload is erased again, and URL mode ends, when the upload's DELETE answers |
| NextImageUpload.ImageUpload.HandleUrlChangeCorrected | src/app/components/ui/image-upload.tsx:126-148 | corrected: a confirmed URL replaces the upload for good, and the upload is deleted |
| NextImageUpload.ImageUpload.ToggleMode | src/app/components/ui/image-upload.tsx:164-182 | as written: leaving upload mode with an upload needs confirmation and then starts the upload's removal without awaiting it; every other case flips the mode |
| NextImageUpload.ConfirmedToggleReverts | src/app/components/ui/image-upload.tsx:164-182 | a confirmed switch to URL mode is undone, with the image cleared, when the upload's DELETE answers |
| NextImageUpload.ImageUpload.ToggleModeCorrected | src/app/components/ui/image-upload.tsx:164-182 | corrected: a confirmed switch deletes the upload, clears the image and stays in URL mode |
| ProductDetail.HasDiscount | client/src/pages/product-detail.tsx:82 | a discount is shown exactly when an original price is given, both prices parse, and the original is the larger |
| ProductDetail.DiscountOfDigits | client/src/pages/product-detail.tsx:82 | on prices written in digits, a discount is shown exactly when the original price's value exceeds the price's |
| ProductDetail.NoDiscountWithoutPrice | client/src/pages/product-detail.tsx:82 | a price that does not parse never shows a discount |
| ProductDetail.AddToCartDisabled | client/src/pages/product-detail.tsx:177 | the button is disabled whenever the cart is busy or the product is not in stock, and enabled when it is in stock and the cart is idle |
| ProductDetail.SpecLabel | client/src/pages/product-detail.tsx:195 | every upper-case letter of a specification key is preceded by a space in its label, and the label never starts with an upper-case letter |
| ProductDetail.SpecLabelUnspaced | client/src/pages/product-detail.tsx:195 | the label only inserts spaces: removing each space in front of an upper-case letter gives the key back |
| ProductDetail.SpecLabelOfLower | client/src/pages/product-detail.tsx:195 | a key without upper-case letters is its own label |
| ProductDetail.ProductPage.constructor | client/src/pages/product-detail.tsx:18 | the quantity starts at 1 |
| ProductDetail.ProductPage.Increment | client/src/pages/product-detail.tsx:37 | the quantity grows by one and stays at least 1 |
| ProductDetail.ProductPage.Decrement | client/src/pages/product-detail.tsx:38 | the quantity shrinks by one, but never below 1 |
| ProductDetail.ProductPage.HandleAddToCart | client/src/pages/product-detail.tsx:31-35 | before the product loads nothing is added; afterwards its id is added with the chosen quantity, which is at least 1 |
| InquiriesPage.ProjectTypeColour | src/app/admin/inquiries/page.tsx:58-69 | the badge is green, blue or purple exactly when the lower-cased type is residential, commercial or industrial, and gray otherwise |
| InquiriesPage.ColourIgnoresCase | src/app/admin/inquiries/page.tsx:59 | lower-casing a type does not change its colour |
| InquiriesPage.Count | src/app/admin/inquiries/page.tsx:115-139 | a type counter never exceeds the number of inquiries |
| InquiriesPage.UntypedNotCounted | src/app/admin/inquiries/page.tsx:116-118 | an inquiry without a project type adds to no counter |
| InquiriesPage.CountsWithinTotal | src/app/admin/inquiries/page.tsx:108-139 | the three type counters together never exceed the total shown |
| InquiriesPage.Capitalised | src/app/admin/inquiries/page.tsx:220-221 | the label keeps the type's length, upper-cases its first letter and keeps the rest |
| InquiriesPage.CapitalisedIdempotent | src/app/admin/inquiries/page.tsx:220-221 | capitalising a label again changes nothing |
| InquiriesPage.Badge | src/app/admin/inquiries/page.tsx:214-222 | a badge is shown exactly for a non-empty type, with the capitalised type and its colour |
| InquiriesPage.CountedBadge | src/app/admin/inquiries/page.tsx:115-222 | an inquiry counted as residential shows a green badge |
| AdminQueries.ProjectTypeColour | client/src/pages/admin/queries.tsx:34-45 | the badge is green, blue or purple exactly when the type is residential, commercial or industrial, case included; a missing type is gray |
| AdminQueries.ColourAgreesWithNext | client/src/pages/admin/queries.tsx:34-45 | where this list picks a colour other than gray, the Next.js list picks the same one |
| AdminQueries.CapitalisedTypeIsGray | client/src/pages/admin/queries.tsx:35-36 | a capitalised `Residential` is gray here but green in the Next.js list |
| AdminQueries.Count | client/src/pages/admin/queries.tsx:89-107 | a type counter never exceeds the number of inquiries |
| AdminQueries.CountsWithinTotal | client/src/pages/admin/queries.tsx:83-107 | the three type counters together never exceed the total shown |
| AdminQueries.CountAtMostNext | client/src/pages/admin/queries.tsx:89-107 | counting exact matches never counts more than the Next.js list's case-insensitive counter |
| AdminQueries.DateText | client/src/pages/admin/queries.tsx:139 | an inquiry without a date shows the fixed fallback text; one with a date shows the formatted date |
| AdminQueries.Badge | client/src/pages/admin/queries.tsx:141-145 | a badge is shown exactly for a non-empty type, with the capitalised type and this list's colour |
| AdminAuth.AuthenticateAdmin | src/lib/middleware.ts:11-29 | a user is returned exactly when there is a non-empty token whose verification gives an administrator payload; a missing token or a throwing verification gives none |
| RouteGuard.Middleware | middleware.ts:4-35 | paths outside `/admin`, and `/admin` itself, pass; any other admin path passes exactly when its token authenticates an administrator, and is otherwise sent to the login page |
| RouteGuard.LoginExemptionUnreachable | middleware.ts:6-13 | no path under `/admin` is `/login`, so the login exemption never applies |
| RouteGuard.MissingTokenRedirects | middleware.ts:15-20 | an admin page requested without a token, or with an empty one, is sent to the login page |
| BrandsRoute.Post | src/app/api/admin/brands/route.ts:9-57 | a non-administrator gets 403, a missing or blank name 400, a duplicate name 400; only a saved brand, with the trimmed name and the current time, changes the collection, and it becomes its last entry |
| BrandsRoute.PostOutcomes | src/app/api/admin/brands/route.ts:31-49 | for an administrator with a usable name, the duplicate answer comes exactly when a brand of that name exists ignoring case, and the brand is saved exactly when none does |
| BrandsRoute.PostKeepsNamesUnique | src/app/api/admin/brands/route.ts:31-49 | creating a brand keeps the brand names unique, ignoring case, for requests that do not overlap |
| BrandsRoute.Get | src/app/api/admin/brands/route.ts:59-81 | a non-administrator gets 403; an administrator gets every brand, none added or dropped |
| BrandsRoute.GetNewestFirst | src/app/api/admin/brands/route.ts:71 | the listed brands come newest first |
| Numbers.ParseIntRoundTrip | server/routes.ts:34 | `parseInt` of the decimal numeral of a natural number gives that number back |
| Numbers.ParseIntNaNIff | server/routes.ts:83 | `parseInt` of a decimal path id is `NaN` exactly when no digit follows the optional sign |
| Numbers.ParseFloatOfDigits | client/src/pages/product-detail.tsx:82 | `parseFloat` of a string of digits is the number those digits denote |
| Numbers.ToNumberRoundTrip | client/src/pages/admin/products.tsx:232 | `Number` of the decimal numeral of a natural number gives that number back |
| Text.JoinSplit | client/src/hooks/use-cloudinary.ts:196-201 | joining the pieces of a split with the same separator gives the string back |
| Text.SplitJoin | client/src/hooks/use-cloudinary.ts:196-201 | splitting a join of separator-free pieces gives the pieces back |
| Text.LowerIdempotent | src/app/admin/inquiries/page.tsx:59 | lower-casing twice is lower-casing once |
| Text.TrimEmptyIff | src/app/api/admin/brands/route.ts:24 | a name trims to the empty string exactly when it is all whitespace |
| Text.TrimIdempotent | src/app/api/admin/brands/route.ts:44 | trimming a trimmed name changes nothing |

## Left out

- Storage.MemStorage.constructor: the seed catalogue of `initializeData` is passed in as a function of the two category ids and the time, rather than being built inside the constructor; `SampleProducts` is that catalogue, and the constructor stores whatever list it is handed. The cost of verifying heap updates built from the catalogue's string literals is the reason.
- Clocks: every `new Date()` of the store and of the API routes is an `Instant`/`int` parameter. The six seed products' separate `new Date()` calls are one shared `now` in `Storage.SampleProducts`, so the seeds have equal creation times and the newest-first listing keeps them in id order (`Sorting.SortAllTies`); in the source their times may differ by milliseconds.
- Strings are sequences of Unicode scalar values. This matches JavaScript's UTF-16 strings on text within the Basic Multilingual Plane; a character outside it is one character here but two code units there, and a lone surrogate cannot be represented.
- Case mapping is ASCII only. `toLowerCase`/`toUpperCase` on letters outside ASCII (for example the Kelvin sign) are not modelled.
- `parseFloat` reads decimal literals with an optional sign and fraction. Exponents, `Infinity` and hexadecimal forms are not parsed. `Numbers.ToNumber` (`Number()`) accepts integers only: an optional sign and decimal digits, with surrounding whitespace ignored and a blank string read as 0. Fractions, exponents, hexadecimal and `Infinity` give `NaN` (`None`) in the model, unlike in JavaScript. Its one use, `ClientAdminProducts.SubmittedCategoryId`, only meets the decimal id strings the category select supplies.
- Prices and ratings are exact rationals (`real`) rather than IEEE doubles. Rounding of very long decimals is not modelled.
- ClientProductsPage.FilteredProducts: the Vite client's listing is modelled with the corrected price-range and category tests (`KeptByPriceRange`, `KeptByCategory`, through `Passes`), not the tests as written (Findings rows 1 and 3). `FilteredProducts`, `Shown` and `PageCount` therefore describe the corrected listing: as written, `over-500` keeps a product priced 5 and a category chosen in the panel keeps every product. The as-written tests and their effect are stated by `KeptByPriceRangeAsWritten`, `FallThroughKeepsCheapProduct`, `KeptByCategoryAsWritten` and `SelectedCategoryIgnored`.
- Sorting.Sort: the Vite client's listing is modelled with its corrected default comparator (`ClientProductsPage.FeaturedFirst`). `ClientProductsPage.Comparator`, `SortedProducts`, `FeaturedOrder`, `FeaturedStable` and `Shown` therefore describe the corrected listing, not the page as written. The inconsistent comparator as written (`FeaturedFirstAsWritten`) is never passed to the sort: for it an engine's `Array.prototype.sort` gives an order that depends on the implementation, and the model states nothing about it beyond the inconsistency itself (`FeaturedComparatorInconsistent`).
- Network calls are not made. Each request is returned as the value it would send, and each awaited answer is a parameter of the method that handles it. This covers `fetch`, `apiRequest`, Cloudinary's `uploader.upload`/`destroy`, and the hook's `deleteImage` request.
- The Cloudinary hook's `upload` (XHR upload, progress tracking, signature fetch) is not modelled; only `extractPublicIdFromUrl` and the guard of `deleteImage` are.
- React mechanics are not modelled: effects and their dependency lists, re-renders, the ordering of state setters within one handler, toasts, `alert`, and navigation. An effect is a method the page calls explicitly. The one ordering that changes behaviour, an unawaited `handleRemoveImage`, is modelled by `pendingRemovals` and `RemovalSettled`.
- `formatFileSize` in `src/lib/image-utils.ts` uses `Math.log` and `toFixed` on doubles, and is not modelled.
- `getImageDimensions` in `src/lib/image-utils.ts` is not modelled, because it loads an image in the browser.
- Date formatting (`toLocaleDateString`, date-fns `format`) is not modelled. `AdminQueries.DateText` takes the formatted text as a parameter.
- URL parsing is left to the WHATWG URL Standard, section 4.4 (URL parsing). `ImageUtils.IsValidImageUrl` takes the parsed pathname, or `None` when the parser throws.
- `JSON.parse` of product specifications is not modelled. Only the key-label rewrite is.
- BrandsRoute.Post: the duplicate query builds an unescaped regular expression from the name. The model states a case-insensitive whole-name equality instead, so a name containing regular-expression characters behaves differently in the source.
- Routes.PutCartRoute: the body's `quantity` is an optional integer. Raw JSON values such as `1.5`, `"2"`, `true` or `"abc"` pass the source's `!quantity || quantity < 1` guard and are stored as the line's quantity by `updateCartItem`. The model cannot express those inputs, so it does not state what the route does with them.
- BrandsRoute.Post: each request is modelled as atomic. In the source the duplicate check and `brand.save()` are separated by awaits, so two overlapping requests for "Foo" and "foo" can both be saved, and two overlapping identical names reach the case-sensitive `unique` index of src/models/Brand.ts and get a 500; `BrandsRoute.PostKeepsNamesUnique` covers only requests that do not overlap.
- BrandsRoute.Post: a JSON body whose `name` is not a string, and every `catch` that answers 500, are not modelled.
- The Next.js middleware's `matcher` configuration is not modelled. Which paths reach `middleware` is left to the framework.
- `verifyToken` (JWT verification) is not modelled. Its outcome is the `Verification` input.
- The Express routes that only forward to the store are not modelled separately: `GET /api/categories`, `GET /api/cart/:sessionId`, `DELETE /api/cart/session/:sessionId`, and `POST /api/inquiries` with its zod validation. Their store operations are modelled in `Storage`.
- The 500 answers of the Express routes and the Next.js API routes, raised when the store or a library throws, are not modelled.
- ClientImageUpload.ImageUpload.constructor: `maxSizeInMB` is a natural number. A fractional or negative limit is not modelled.
- The pages' `onChange` callbacks are not modelled as components. The image value the Next.js field reads is the one it last emitted, as the parent pages store it.
- Drag-and-drop and file-input events only pick the file passed to `handleFileSelect`/`handleFileUpload`. They are not modelled apart from that.
- Presentation-only components, the database drivers and the Mongoose-backed API routes are not part of this model.

## Findings

| source | as written | input that shows it | evidently intended | confidence | as-written member | corrected member |
|---|---|---|---|---|---|---|
| client/src/pages/products.tsx:61-66 | the `100-500` and `over-500` cases test the price but have no `return false`, so the test only decides whether to `break` and every product passes | price range `over-500`, a product priced 5: it is listed | keep only prices in `[10000, 50000]` and above `50000` respectively | high; not executed | ClientProductsPage.KeptByPriceRangeAsWritten, ClientProductsPage.FallThroughKeepsCheapProduct | ClientProductsPage.KeptByPriceRange |
| client/src/pages/products.tsx:92 | the default comparator returns `1` whenever `b` is featured and `-1` otherwise, whatever `a` is | two featured products `a`, `b`: `cmp(a, b) > 0` and `cmp(b, a) > 0`, and `cmp(a, a) != 0` | featured products first: the difference of featured keys | high; not executed | ClientProductsPage.FeaturedFirstAsWritten, ClientProductsPage.FeaturedComparatorInconsistent | ClientProductsPage.FeaturedFirst |
| client/src/pages/products.tsx:73-77 | the page compares a category's slug with `filters.category`, which the filter panel sets to an array of slugs (client/src/components/product/product-filters.tsx:75-79), so no category ever matches and the checked category is ignored | categories `[c]`, checked `c`, a product outside `c`: it is listed | keep only the products of the checked categories | medium; not executed | ClientProductsPage.KeptByCategoryAsWritten, ClientProductsPage.SelectedCategoryIgnored | ClientProductsPage.KeptByCategory |
| src/app/components/ui/image-upload.tsx:164-182 | `toggleMode` calls the async `handleRemoveImage` without awaiting it and then turns URL mode on; the removal's own `setIsUrlMode(false)` runs after its DELETE answers | upload mode, a Cloudinary image, confirm the switch: once the DELETE answers, the field is back in upload mode with no image | a confirmed switch ends in URL mode without the image | high; not executed | NextImageUpload.ImageUpload.ToggleMode, NextImageUpload.ConfirmedToggleReverts | NextImageUpload.ImageUpload.ToggleModeCorrected |
| src/app/components/ui/image-upload.tsx:126-148 | `handleUrlChange` calls the async `handleRemoveImage` without awaiting it and then emits the typed URL; the removal's `onChange("")` runs after its DELETE answers | a Cloudinary image, type a URL and confirm: once the DELETE answers, the image is empty and URL mode is off | the typed URL replaces the upload for good | high; not executed | NextImageUpload.ImageUpload.HandleUrlChange, NextImageUpload.ConfirmedUrlErased | NextImageUpload.ImageUpload.HandleUrlChangeCorrected |
