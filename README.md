# Todo CRUD demo: a verified model of its decision logic

The repository holds an Express/PostgreSQL todo API and an Angular front end.
This project models the parts that make decisions:

- **Todo table.** The todo table behind `todo.service.js` is a class holding a map from id to row and the next `serial` value.
- **Controller.** The five controller handlers return the status and body they would send. The store's failure is an input.
- **List pages.** The three list pages keep a sort column and direction and sort their array in place:
  - Sorting is specified by a stable insertion sort on sequences.
  - An in-place sort on the array is proved equal to it.
  - That sort is proved to be an ordered permutation that keeps tied rows in their original order.
- **Product list.** The product list also filters by price and category and collects the distinct categories.
- **Todo form.** The form sends either an add or an update and resets itself.
- **Register page.** The register page validates its fields and checks that the password and its confirmation match. On submit it calls a simulated auth service.
- **Home page.** The home page opens and closes the form and deletes a todo only after the dialog confirms.
- **Home service.** The home service builds the requests and looks todos up.
- **Todo model.** The todo model supplies constructor defaults and copies.
- **Products.** The product service looks products up in a fixed catalogue of five. The product-detail page validates the id, shows the product with its price doubled, or reports an error.

Requests and their outcomes are values. An HTTP call is the request it would send. Its success or failure is a parameter. An Observable chain is the state it leaves once it has settled.

A non-numeric id in the URL reaches the query as `parseInt`'s NaN; PostgreSQL rejects it and the handler answers 500. So `GetTodoById`, `UpdateTodo` and `DeleteTodo` answer 500 for NaN.

## Model

| member | source | states |
|---|---|---|
| KeyOrder.AscendingIn | back/src/services/todo.service.js:7-8 | the keys of the table in a range, strictly ascending, each key in range listed exactly once |
| TodoService.AscendingListing | back/src/services/todo.service.js:7-8 | reading the rows by ascending keys lists every row once, by strictly ascending id |
| TodoService.TodoTable.FindAll | back/src/services/todo.service.js:5-13 | every row of the table by strictly ascending id; a failed query is rethrown unchanged |
| TodoService.TodoTable.FindById | back/src/services/todo.service.js:16-24 | the row with that id exactly when the table has one, otherwise undefined; a failure is rethrown |
| TodoService.TodoTable.Create | back/src/services/todo.service.js:27-39 | one new row with the next id, the given text and userId, which is returned; other rows unchanged; on failure nothing changes |
| TodoService.TodoTable.Update | back/src/services/todo.service.js:42-54 | only the text of that row changes and the row is returned; an absent id returns undefined and changes nothing |
| TodoService.TodoTable.Delete | back/src/services/todo.service.js:57-68 | exactly that row is removed and its id returned; an absent id returns undefined and changes nothing |
| TodosController.ParseInt | back/src/controllers/todos.controller.js:16 | `parseInt` is NaN exactly when no digit follows the optional sign; otherwise it is the signed value of the leading digits, whatever follows them |
| TodosController.ParseIntOfDigits | back/src/controllers/todos.controller.js:16 | a run of digits parses as its value |
| TodosController.ParseIntOfNegated | back/src/controllers/todos.controller.js:16 | a minus sign and digits parse as the negated value |
| TodosController.ParseIntToString | back/src/controllers/todos.controller.js:16 | the text a template writes for any integer parses back to that integer |
| TodosController.UserIdOrDefault | back/src/controllers/todos.controller.js:37 | a missing or zero userId becomes 1; any other is kept |
| TodosController.GetAllTodos | back/src/controllers/todos.controller.js:5-12 | 200 with every row by ascending id, or 500 with the fixed message when the store throws |
| TodosController.GetTodoById | back/src/controllers/todos.controller.js:15-27 | 200 with the row, 404 when absent, 500 when the id is NaN or the store throws |
| TodosController.CreateTodo | back/src/controllers/todos.controller.js:30-45 | a missing or empty text gets 400 and leaves the table untouched; otherwise 201 with the inserted row, or 500 with nothing changed |
| TodosController.UpdateTodo | back/src/controllers/todos.controller.js:48-75 | only a missing text gets 400 (an empty one is forwarded); 200 with the row whose text alone changed, 404 when absent, 500 for NaN or a failure; only a 200 changes the table |
| TodosController.DeleteTodo | back/src/controllers/todos.controller.js:78-91 | 204 with no body and the row removed, 404 when absent, 500 for NaN or a failure; only a 204 changes the table |
| TodosController.DeleteThenGet | back/src/controllers/todos.controller.js:15-91 | deleting an existing row by its id text answers 204, and reading it back then answers 404 |
| TodosController.Lifecycle | back/src/controllers/todos.controller.js:30-91 | on an empty table: create answers 201 with row 1, rename 200, delete 204, read 404 |
| SortToggle.Flip | front/src/app/pages/users/users.component.ts:56-58 | the direction always changes |
| SortToggle.Click | front/src/app/pages/user-list-angular-style/user-list-angular-style.component.ts:203-210 | the clicked column becomes current; it is ascending exactly when it was not current or was descending |
| SortToggle.ClickTwiceOnCurrent | front/src/app/pages/user-list-angular-style/user-list-angular-style.component.ts:203-205 | two clicks on the current column restore the state |
| SortToggle.ClickTwiceOnOther | front/src/app/pages/user-list-angular-style/user-list-angular-style.component.ts:206-210 | two clicks on another column leave it current and descending |
| SortToggle.Directed | front/src/app/pages/users/users.component.ts:83-84 | ascending keeps the comparison, descending negates it |
| SortToggle.SortIcon | front/src/app/pages/user-list-angular-style/user-list-angular-style.component.ts:250-255 | ' ▲' exactly for the current ascending column, ' ▼' exactly for the current descending one, the given text elsewhere |
| SortToggle.IconAfterClick | front/src/app/pages/user-list-angular-style/user-list-angular-style.component.ts:250-255 | after a click the clicked column shows ▲ unless it was current and ascending |
| Collation.Collate | front/src/app/pages/users/users.component.ts:74-77 | the text comparison answers -1, 0 or 1 |
| Collation.CollateFlip | front/src/app/pages/users/users.component.ts:74-77 | swapping the operands negates the answer |
| Collation.CollateZero | front/src/app/pages/users/users.component.ts:74-77 | zero exactly for equal texts |
| Collation.CollateTransitive | front/src/app/pages/users/users.component.ts:74-77 | the order is transitive |
| Collation.DirectedCollate | front/src/app/pages/users/users.component.ts:74-84 | in either direction the text comparison is total and transitive |
| Sorting.InsertPermutes | front/src/app/pages/users/users.component.ts:66 | inserting adds exactly the one element |
| Sorting.SortPermutes | front/src/app/pages/user-list-angular-style/user-list-angular-style.component.ts:215 | sorting only reorders: same multiset, same length |
| Sorting.InsertOrdered | front/src/app/pages/users/users.component.ts:66 | inserting into an ordered sequence keeps it ordered |
| Sorting.SortOrdered | front/src/app/pages/users/users.component.ts:66-85 | with a consistent comparator the result is ordered |
| Sorting.SortKeepsOrdered | front/src/app/pages/users/users.component.ts:66 | an already ordered sequence is left as it is |
| Sorting.SortIdempotent | front/src/app/pages/users/users.component.ts:66 | sorting twice gives the same as sorting once |
| Sorting.SortByNothing | front/src/app/pages/users/users.component.ts:79-80 | a comparator that always answers 0 keeps the order |
| Sorting.InsertStable | front/src/app/pages/users/users.component.ts:66 | inserting keeps the order of the elements tied with any key |
| Sorting.SortStable | front/src/app/pages/user-list-angular-style/user-list-angular-style.component.ts:215 | elements that compare equal keep their relative order |
| Sorting.MakeRoom | front/src/app/pages/product-list/product-list.component.ts:115 | the elements after the insertion point shift one place right, and that point is where the specification inserts |
| Sorting.InsertLast | front/src/app/pages/product-list/product-list.component.ts:115 | one step of the in-place sort is the specification's insertion of the next element |
| Sorting.SortInPlace | front/src/app/pages/product-list/product-list.component.ts:115 | the array ends as the stable sort of its old contents |
| UserPosts.ByColumnConsistent | front/src/app/pages/users/users.component.ts:66-85 | every column and direction gives a consistent comparator |
| UserPosts.UnknownColumnKeepsOrder | front/src/app/pages/users/users.component.ts:79-80 | an unknown column leaves the rows as they were |
| UserPosts.SortedById | front/src/app/pages/users/users.component.ts:66-85 | sorting by id is a permutation with ids non-decreasing (asc) or non-increasing (desc) |
| UserPosts.SortReorders | front/src/app/pages/user-list-angular-style/user-list-angular-style.component.ts:215-236 | any column: a permutation, ordered by the comparator, with tied rows in their old order |
| UserPosts.SortedCopy | front/src/app/pages/user-list-angular-style/user-list-angular-style.component.ts:215-242 | the array sorted in place and a fresh copy of it: a permutation, id-ordered for 'id', unchanged for an unknown column |
| Users.UsersComponent.constructor | front/src/app/pages/users/users.component.ts:20-24 | an empty list, tab 1, no current column, ascending |
| Users.UsersComponent.FetchData | front/src/app/pages/users/users.component.ts:26-37 | success keeps the first 20 rows; failure leaves the list unchanged |
| Users.UsersComponent.ChangeTab | front/src/app/pages/users/users.component.ts:43-46 | the tab changes and nothing else |
| Users.UsersComponent.SortTableHtml | front/src/app/pages/users/users.component.ts:54-88 | the click's new sort state, then a new array holding the stable sort of the old rows: a permutation, id-ordered for 'id', unchanged for an unknown column |
| Users.UsersComponent.GetSortIcon | front/src/app/pages/users/users.component.ts:90-95 | the arrow on the current column and '' on any other |
| UserListAngularStyle.UserListAngularStyleComponent.constructor | front/src/app/pages/user-list-angular-style/user-list-angular-style.component.ts:38-49 | the field initialisers: empty list, tab 1, not loading, no error |
| UserListAngularStyle.UserListAngularStyleComponent.FetchData | front/src/app/pages/user-list-angular-style/user-list-angular-style.component.ts:79-188 | success keeps the first 5 rows and no error; failure empties the list and sets the message; loading ends false |
| UserListAngularStyle.UserListAngularStyleComponent.ChangeTab | front/src/app/pages/user-list-angular-style/user-list-angular-style.component.ts:190-193 | the tab changes and nothing else |
| UserListAngularStyle.UserListAngularStyleComponent.SortTableHtml | front/src/app/pages/user-list-angular-style/user-list-angular-style.component.ts:200-243 | the click's new sort state and the stably sorted rows, as for the users page; the other fields unchanged |
| UserListAngularStyle.UserListAngularStyleComponent.GetSortIcon | front/src/app/pages/user-list-angular-style/user-list-angular-style.component.ts:250-255 | the arrow on the current column and '▼' on any other |
| ProductList.ByColumnConsistent | front/src/app/pages/product-list/product-list.component.ts:115-136 | every column and direction gives a consistent comparator |
| ProductList.SortedByPrice | front/src/app/pages/product-list/product-list.component.ts:128-135 | after sorting by price, prices never decrease (asc) or never increase (desc) |
| ProductList.WithCategoriesContents | front/src/app/pages/product-list/product-list.component.ts:47-52 | the category loop keeps the list as a prefix, adds every product's category, and nothing else |
| ProductList.WithCategoriesDistinct | front/src/app/pages/product-list/product-list.component.ts:47-52 | no category is listed twice |
| ProductList.ProductListComponent.constructor | front/src/app/pages/product-list/product-list.component.ts:16-22 | the field initialisers |
| ProductList.ProductListComponent.CollectCategories | front/src/app/pages/product-list/product-list.component.ts:47-52 | 'Tout' is appended, then each new category once, in order of first appearance |
| ProductList.ProductListComponent.FetchProductData | front/src/app/pages/product-list/product-list.component.ts:37-91 | both lists become the fetched products priced above 20, in order, and categories are collected; a failure sets the error's message or the default and empties both lists; loading ends false |
| ProductList.ProductListComponent.ApplyFiltersAndSort | front/src/app/pages/product-list/product-list.component.ts:111-139 | the shown list becomes its stable sort: a permutation ordered by column and direction; the fetched list is untouched |
| ProductList.ProductListComponent.SortProducts | front/src/app/pages/product-list/product-list.component.ts:96-108 | the click's new sort state, then the shown list re-sorted by it; the fetched list, categories, message and loading flag are unchanged |
| ProductList.ProductListComponent.GetSortIcon | front/src/app/pages/product-list/product-list.component.ts:141-146 | the arrow on the current column and '▼' on any other |
| ProductList.ProductListComponent.FilterCategory | front/src/app/pages/product-list/product-list.component.ts:148-158 | 'Tout' restores the fetched list; a listed category shows exactly its products in fetched order; any other value changes nothing |
| ProductService.GetProducts | front/src/app/services/product/product.service.ts:56-59 | five products with ids 1 to 5 in order |
| ProductService.GetProductById | front/src/app/services/product/product.service.ts:61-63 | a product exactly for ids 1 to 5, the one with that id; undefined otherwise |
| ProductService.FindInCatalogue | front/src/app/services/product/product.service.ts:62 | `find` returns the catalogue entry at position id - 1 for ids 1 to 5 and nothing otherwise |
| ProductService.CatalogueIdsUnique | front/src/app/services/product/product.service.ts:10-52 | no two products share an id |
| ProductService.CataloguePassesPriceFilter | front/src/app/services/product/product.service.ts:10-52 | every price exceeds 20, so the list's price filter keeps all five |
| ProductDetail.NumberOf | front/src/app/pages/product-detail/product-detail.component.ts:44 | `Number`: null and '' give 0, digits give their value, a sign and digits give the signed value, and NaN exactly for any other text |
| ProductDetail.NumberOfIntToString | front/src/app/pages/product-detail/product-detail.component.ts:44 | the text of any integer converts back to it |
| ProductDetail.NotFoundNamesId | front/src/app/pages/product-detail/product-detail.component.ts:68 | different ids give different not-found messages |
| ProductDetail.Doubled | front/src/app/pages/product-detail/product-detail.component.ts:58-65 | the copy has twice the price and every other field of the original |
| ProductDetail.ProductDetailComponent.constructor | front/src/app/pages/product-detail/product-detail.component.ts:28-30 | nothing shown, not loading, no message |
| ProductDetail.ProductDetailComponent.NgOnInit | front/src/app/pages/product-detail/product-detail.component.ts:34-39 | the one-time reset: loading, no message, nothing delivered yet |
| ProductDetail.ProductDetailComponent.HandleParam | front/src/app/pages/product-detail/product-detail.component.ts:43-83 | for each route emission: NaN or id <= 0 sets the invalid-id message and keeps the product shown before; a known id shows its doubled copy and keeps the message; another id shows no product and the message with that id; loading ends false |
| ProductDetail.OpenListedProduct | front/src/app/pages/product-detail/product-detail.component.ts:34-88 | opening any catalogue product by its id text shows it with twice its price and no message |
| ProductDetail.InvalidThenListed | front/src/app/pages/product-detail/product-detail.component.ts:47-52 | an invalid id followed by id 1 shows product 1 doubled while the invalid-id message stays on screen |
| TodoModel.NewTodo | front/src/app/models/todo.model.ts:6-10 | each given argument is stored; the defaults are -1, '' and the current time |
| TodoModel.Copy | front/src/app/models/todo.model.ts:12-16 | the copy has the same id, text and time value |
| HomeService.IdSegment | front/src/app/services/home/home.service.ts:102 | `${id}` writes the integer's text, or 'undefined' when the id is missing |
| HomeService.GetAllRequest | front/src/app/services/home/home.service.ts:59-62 | a GET of the base URL |
| HomeService.AddRequest | front/src/app/services/home/home.service.ts:80-84 | a POST of the unchanged draft to the base URL |
| HomeService.DeleteRequest | front/src/app/services/home/home.service.ts:90-94 | a DELETE of base URL + '/' + id |
| HomeService.UpdateRequest | front/src/app/services/home/home.service.ts:100-106 | a PUT of base URL + '/' + id whose body carries only the text |
| HomeService.DeleteUrlInjective | front/src/app/services/home/home.service.ts:91 | different ids give different DELETE URLs |
| HomeService.UpdateUrlMatchesDelete | front/src/app/services/home/home.service.ts:102 | an update targets the URL of id n exactly when its draft carries n; a draft without id targets '/undefined', which the server reads as NaN |
| HomeService.HomeService.constructor | front/src/app/services/home/home.service.ts:13 | the local list starts empty |
| HomeService.HomeService.Get | front/src/app/services/home/home.service.ts:69-74 | a copy of the first todo with that id; undefined exactly when no todo has it; the list is only read |
| Home.Loaded | front/src/app/pages/home/home.component.ts:92-96 | a failed fetch shows an empty list |
| Home.HomeComponent.constructor | front/src/app/pages/home/home.component.ts:61-83 | `fakeListUser` holds the three fake users in order; no list yet; form closed |
| Home.HomeComponent.LoadTodos | front/src/app/pages/home/home.component.ts:89-98 | the list becomes the fetched todos, or empty on failure; nothing else changes |
| Home.HomeComponent.AddItem | front/src/app/pages/home/home.component.ts:100-103 | an empty draft is selected and the form opens |
| Home.HomeComponent.UpdateItem | front/src/app/pages/home/home.component.ts:172-176 | the given todo is selected and the form opens |
| Home.HomeComponent.CloseTodoForm | front/src/app/pages/home/home.component.ts:179-185 | the form closes and the list is reloaded |
| Home.HomeComponent.DeleteItem | front/src/app/pages/home/home.component.ts:105-170 | a delete of that id is sent only for the answer `true`; success reloads the list, failure and any other answer leave it |
| Forms.Check | front/src/app/pages/auth/register/register.component.ts:44-52 | required fails exactly on null or ''; the other validators never fail on an empty value |
| Forms.RequiredHolds | front/src/app/pages/form/form.component.ts:74-76 | a valid required control holds a non-empty text |
| Forms.Patched | front/src/app/pages/form/form.component.ts:64-66 | the new value is validated; dirty and touched are kept |
| Forms.Reset | front/src/app/pages/form/form.component.ts:69 | the value becomes null, pristine and untouched, validated again |
| Forms.Touch | front/src/app/pages/form/form.component.ts:132 | only touched changes |
| Forms.ResetHidesError | front/src/app/pages/form/form.component.ts:97 | a reset required control is invalid but shows no error |
| Form.FormComponent.constructor | front/src/app/pages/form/form.component.ts:34 | an empty `updateTodo` and a pristine text control holding '' |
| Form.FormComponent.NgOnInit | front/src/app/pages/form/form.component.ts:43-56 | a todo with truthy text puts that text in the form; otherwise nothing changes |
| Form.FormComponent.NgOnChanges | front/src/app/pages/form/form.component.ts:58-72 | a new todo with truthy text patches the form; any other new todo resets it; no change leaves it |
| Form.FormComponent.Submit | front/src/app/pages/form/form.component.ts:78-134 | a valid form sends an update of `updateTodo` with the new text when the id is truthy, else an add of `{text}`; success resets the form and emits once, failure changes nothing; an invalid form sends nothing and is touched, so its error shows |
| Form.FormComponent.IsFieldValid | front/src/app/pages/form/form.component.ts:136-139 | true exactly for 'text' when invalid and dirty or touched |
| Form.EditTargetsTodo | front/src/app/pages/form/form.component.ts:86-93 | an edit PUTs to the todo's own URL, which the server parses back to its id, with only the text in the body |
| AuthService.Register | front/src/app/services/auth/auth.service.ts:22-48 | fails with the taken-email message exactly for 'test@example.com'; otherwise echoes name and email with an id in [100, 1099] |
| AuthService.ScaledDraw | front/src/app/services/auth/auth.service.ts:33 | `Math.floor(random * 1000)` lies in [0, 999] |
| AuthService.RegisterReachesEveryId | front/src/app/services/auth/auth.service.ts:33 | every id in [100, 1099] is produced by some draw |
| Register.FieldNamed | front/src/app/pages/auth/register/register.component.ts:85 | the four control names and no other |
| Register.PasswordMatch | front/src/app/pages/auth/register/register.component.ts:60-81 | a mismatch exactly when the passwords differ, then `passwordMismatch` alone on the confirmation; a match clears the group error and every error of a confirmation that had the mismatch, and leaves any other confirmation's errors as they were; nothing else changes |
| Register.InitialForm | front/src/app/pages/auth/register/register.component.ts:41-56 | the blank form is well formed and not valid |
| Register.Entered | front/src/app/pages/auth/register/register.component.ts:41-56 | the typed control holds the value and is dirty |
| Register.ResetForm | front/src/app/pages/auth/register/register.component.ts:114 | the reset form is well formed and not valid, yet shows no error |
| Register.AllTouched | front/src/app/pages/auth/register/register.component.ts:120 | every control touched, nothing else changed |
| Register.Submitted | front/src/app/pages/auth/register/register.component.ts:97-98 | name, email and password are taken from the form, and nothing else |
| Register.ErrorText | front/src/app/pages/auth/register/register.component.ts:104-106 | the error's message, or the default when it is missing or empty |
| Register.PasswordRule | front/src/app/pages/auth/register/register.component.ts:45-52 | the password is valid exactly with 6 to 20 characters |
| Register.ValidFormContents | front/src/app/pages/auth/register/register.component.ts:41-56 | a valid form has a non-empty name, an address-shaped email, a 6 to 20 character password, and a matching confirmation |
| Register.EnteredKeepsWellFormed | front/src/app/pages/auth/register/register.component.ts:60-81 | typing into any field keeps every validator and the mismatch flag consistent |
| Register.PasswordMatchIdempotent | front/src/app/pages/auth/register/register.component.ts:60-81 | running the group validator twice changes nothing more |
| Register.MismatchShows | front/src/app/pages/auth/register/register.component.ts:66-73 | a confirmation that differs leaves the form invalid and shows the mismatch |
| Register.RegisterComponent.constructor | front/src/app/pages/auth/register/register.component.ts:37-56 | the blank form and no message |
| Register.RegisterComponent.IsFieldInvalid | front/src/app/pages/auth/register/register.component.ts:84-89 | false for an unknown name; otherwise the field is invalid and dirty or touched |
| Register.RegisterComponent.OnSubmit | front/src/app/pages/auth/register/register.component.ts:92-122 | an invalid form shows the correction message and is touched; a valid one sends name, email and password: failure shows the error's text (the taken-email message for 'test@example.com'), success the welcome text and resets the form |

## Left out

- Express wiring, CORS, logging middleware, the pg pool and SQL itself: the store is the map the statements act on.
- Asynchronous machinery: `switchMap` cancellation, subscriptions and `ngOnDestroy`, `finalize` timing, the one-second `delay` in the auth service, and console logging. Each request's outcome is an input, and each chain is modelled by the state it settles in.
- `localStorage` load and save in the home service: only the `get` lookup over `todoList` is modelled, so the list starts empty.
- Collation.Collate: `localeCompare` follows the locale's collation. The model orders by code point (Dafny's characters are Unicode scalar values), which has the same properties the sorts need: total, antisymmetric and transitive.
- Prices are integers, as every catalogue price is; floating point is not modelled.
- TodosController.ParseInt: leading whitespace, other radixes (`0x`) and values outside the int4 range are not modelled; PostgreSQL's rejection of NaN is taken as given rather than calling the store.
- ProductDetail.NumberOf: decimals, exponents, hex, whitespace and `Infinity` are read as NaN here, though `Number` accepts them. Ids are exact integers: beyond 2^53 `Number` rounds (`9007199254740993` becomes `9007199254740992`) and from 1e21 on `${id}` writes exponent form, so for such ids the model's value and `NotFoundMessage` keep the typed digits where the page would not.
- ProductDetail.ProductDetailComponent.HandleParam: the `catchError` branch is not modelled. `getProductById` returns `of(...)` synchronously and never errors, so that branch cannot run.
- TodosController.CreateTodo: a JSON `null` or non-string `text` is not modelled; text is a string or missing.
- TodosController.CreateTodo: `userId` is an integer or missing. A truthy `userId` that is not an int4 (`"abc"`, `2.5`) reaches the INSERT, which PostgreSQL rejects with a 500; the model cannot express that input.
- TodosController.UpdateTodo: a body `{"text": null}` passes the `text === undefined` guard and the row's text is set to NULL; `text: Option<string>` cannot express a present null, so that update is not modelled.
- Register.PasswordRule: lengths are counted in Dafny characters (Unicode scalar values), while Angular's `minLength` and `maxLength` read the JavaScript string length in UTF-16 code units. The two agree on text without characters outside the Basic Multilingual Plane; five emoji (10 units) are valid in Angular but too short here, eleven (22 units) too long in Angular but accepted here.
- Forms.Check: the same length caveat applies to `MinLength` and `MaxLength`: they count characters, not UTF-16 code units.
- Math.random is the parameter `random` in [0, 1).
- Forms.EmailShaped: stands in for Angular's email pattern with "non-empty local part, '@', non-empty domain".
- Register.Entered: typing into a field and leaving it (touch on blur) are Angular's. Only typing is modelled, as a function over the form.
- The username's `Validators.minLength(3)` sits where Angular expects asynchronous validators. The model does not run it, so a username only needs to be non-empty. Angular's forms would treat the synchronous validator's result as an async one and fail on the first non-empty username, leaving the control pending, so `registerForm.valid` would never hold and the register call could not be reached; that rests on Angular's internals, which are not part of this model, and Register.RegisterComponent.OnSubmit's valid branch models the evident intent of the code.
- Todo objects and their copies are values here: object identity, and the fact that a copy is a fresh instance, are not modelled.
- The home page's `todos$` Observable is the list it delivers; the dialog is its answer.
- The product list's `default` comparator branch cannot be reached with the typed column, so it is not modelled.
- Templates, Material dialogs and change detection.
