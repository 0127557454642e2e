# FashionHub storefront: state containers and form validation

A Dafny model of the logic behind the FashionHub mobile storefront. The app is
mostly React Native view code. What it decides for itself is modelled here:

- **Product catalog** (`app/context/ProductContext.tsx`). One state cell holds
  the product list. `addProduct` appends a product under a new id. `updateProduct`
  merges a partial record into every product with a given id. `deleteProduct`
  removes the products with a given id. `getProductById` finds the first product
  with an id. `getProductsByCategory` filters by category, ignoring case. The
  container also exposes a fixed list of four categories.
  Modelled as the class `ProductCatalog.ProductStore`. Its methods replace the
  `products` field by pure functions of the old list (`Appended`, `Updated`,
  `Removed`). `Updated` is built from `Collections.Map`, `Removed` from
  `Collections.Filter`, and the lookup `FindById` from `Collections.Find`;
  these are the models of JavaScript's array methods.
- **Theme** (`app/context/ThemeContext.tsx`). The mode is `light`, `dark` or
  `auto`, starting at `auto`. `toggleTheme` cycles auto → light → dark → auto.
  The active theme is the mode itself, except that `auto` follows the device's
  reported scheme, where only `"dark"` gives dark. The active theme selects the
  dark or the light palette. Modelled as the class `Theme.ThemeProvider`.
- **Mock authentication** (`app/context/AuthContext.tsx`). There is one current
  user or none. `login` accepts a non-empty email with a password of at least
  six characters. It creates user `"1"`, named after the text before the first
  `@`, with administrator rights when the email contains `"admin"`. `signup`
  additionally needs a non-empty name and never grants administrator rights.
  `logout` clears the user. Modelled as the class `Auth.AuthProvider`.
- **Login and signup forms** (`app/auth/login.tsx`, `app/auth/signup.tsx`).
  The email pattern `^[^\s@]+@[^\s@]+\.[^\s@]+$` is `FormValidation.ValidEmail`.
  `ValidEmailIffShape` proves it equal to a description in words: no
  whitespace, exactly one `@`, something before the `@`, and a `.` inside the
  domain. Each field gets its own error message, in the order the screens
  check them. The submit handlers (`HandleLogin`, `HandleSignup`) call the auth
  container only when every message is empty. A form that passes these
  checks is always accepted by the mock guard, so the failure alert is never
  shown.

Both screens contain the same `validateEmail` (login.tsx:24-27 and
signup.tsx:26-29) and the same email and password rules. The model defines them
once, in `FormValidation`, and both screens use that definition.

Inputs the source reads from its environment are parameters here:

- the new product's id, which the source takes from `Date.now()`;
- the initial catalog, which the source loads from a bundled data file;
- the device colour scheme, which the source gets from `useColorScheme()`.
  `None` stands for `null`.

Ids come from `Date.now()` and the code never checks them for repeats, so two
adds in the same millisecond get the same id. The model claims a lookup
property only for an id that is not yet present (`AddThenFind`).
`AddDuplicateIdShadowed` shows what happens with a repeated id: lookups keep
returning the older product. Administrator rights come from
`email.includes('admin')` and from nothing else.

## Model

| member | source | states |
|---|---|---|
| `Collections.Filter` | app/context/ProductContext.tsx:47 | `filter` returns a subsequence of its input, holding only kept elements, every kept element, and exactly as many elements as the input has kept ones |
| `Collections.FilterUnique` | app/context/ProductContext.tsx:47 | any sequence with those properties equals the filter result, so they fully specify it |
| `Collections.FilterIdempotent` | app/context/ProductContext.tsx:55-57 | applying the same filter twice gives the same result as applying it once |
| `Collections.Map` | app/context/ProductContext.tsx:40-42 | `map` keeps the length, and position i of the result is the function applied to position i of the input |
| `Collections.FindIndex` | app/context/ProductContext.tsx:51 | the index found is in range and its element satisfies the test; no earlier element does; when nothing is found, no element satisfies it |
| `Collections.Find` | app/context/ProductContext.tsx:51 | `find` gives nothing exactly when no element satisfies the test; otherwise it gives the element at the first position that does |
| `JsStrings.IsSpace` | app/auth/login.tsx:25 | the `\s` class holds exactly for the ECMAScript WhiteSpace and LineTerminator code points: tab, vertical tab, form feed, space, no-break space, zero-width no-break space, the space separators U+1680, U+2000-U+200A, U+202F, U+205F and U+3000, and line feed, carriage return, U+2028 and U+2029 |
| `JsStrings.IsSpaceAscii` | app/auth/signup.tsx:27 | within ASCII, `\s` matches exactly the code points 9 to 13 and 32 |
| `JsStrings.OccursAt` | app/context/AuthContext.tsx:26 | a string occurs at a position when it fits there and the block of its length starting at that position equals it |
| `JsStrings.Includes` | app/context/AuthContext.tsx:26 | `includes` holds exactly when the substring occurs as a contiguous block at some position |
| `JsStrings.IncludesJoin` | app/context/AuthContext.tsx:26 | any string placed between two others is included in the result |
| `JsStrings.IncludesTooLong` | app/context/AuthContext.tsx:26 | a substring longer than the string is never included |
| `JsStrings.LowerChar` | app/context/ProductContext.tsx:56 | lower-casing maps each ASCII capital to its small letter and leaves every other character unchanged |
| `JsStrings.Lower` | app/context/ProductContext.tsx:56 | `toLowerCase` keeps the length and lower-cases position by position |
| `JsStrings.LowerIdempotent` | app/context/ProductContext.tsx:56 | lower-casing an already lower-cased string changes nothing |
| `JsStrings.LowerOfLowerAscii` | app/context/ProductContext.tsx:28 | a string made only of small ASCII letters is its own lower-case form, as every fixed category name is |
| `JsStrings.BeforeFirst` | app/context/AuthContext.tsx:30 | `split(c)[0]` is a prefix of the string without `c`, and it stops either at the end or at a `c` |
| `JsStrings.BeforeFirstAbsent` | app/context/AuthContext.tsx:30 | with no `c` in the string, `split(c)[0]` is the whole string |
| `JsStrings.BeforeFirstSplits` | app/context/AuthContext.tsx:30 | when `c` occurs, the string is the part before the first `c`, then `c`, then the rest |
| `JsStrings.BeforeFirstOfJoin` | app/context/AuthContext.tsx:30 | splitting `a + c + b` at `c` gives back `a` when `a` has no `c` |
| `ProductCatalog.WithId` | app/context/ProductContext.tsx:31-34 | the appended record carries every given field plus the supplied id |
| `ProductCatalog.Appended` | app/context/ProductContext.tsx:35 | adding grows the list by one; all earlier entries stay unchanged and in order; the new record is last |
| `ProductCatalog.Updated` | app/context/ProductContext.tsx:38-44 | updating keeps the length and order; every entry with the id becomes that entry merged with the patch; every other entry is unchanged |
| `ProductCatalog.Merge` | app/context/ProductContext.tsx:41 | each field of the merged product, the id included, is the patch's value when the patch sets it and the product's own value otherwise |
| `ProductCatalog.MergeEmpty` | app/context/ProductContext.tsx:41 | spreading an empty partial record over a product leaves it unchanged |
| `ProductCatalog.MergeIdempotent` | app/context/ProductContext.tsx:41 | merging the same patch twice gives the same result as merging it once |
| `ProductCatalog.MergeCombine` | app/context/ProductContext.tsx:41 | two successive merges equal one merge of the combined patch, the later patch winning where both set a field |
| `ProductCatalog.MergeFull` | app/context/ProductContext.tsx:41 | a patch that sets every field replaces the whole product |
| `ProductCatalog.UpdateAbsent` | app/context/ProductContext.tsx:39-43 | updating an id no product has leaves the list identical |
| `ProductCatalog.UpdateKeepsIds` | app/context/ProductContext.tsx:38-44 | a patch that sets no id, or the same id, leaves every product's id as it was |
| `ProductCatalog.Removed` | app/context/ProductContext.tsx:46-48 | deleting yields an order-preserving subsequence; it holds no product with the id and every product without it, exactly as many as the list has |
| `ProductCatalog.RemoveExact` | app/context/ProductContext.tsx:46-48 | any list with those properties is the deletion result |
| `ProductCatalog.RemoveAbsent` | app/context/ProductContext.tsx:46-48 | deleting an absent id is a no-op |
| `ProductCatalog.RemoveThenFind` | app/context/ProductContext.tsx:46-52 | after deleting an id, looking it up finds nothing |
| `ProductCatalog.FindById` | app/context/ProductContext.tsx:50-52 | lookup finds nothing exactly when no product has the id; otherwise it returns the first product with that id |
| `ProductCatalog.AddThenFind` | app/context/ProductContext.tsx:30-36 | after adding under an id not yet present, looking that id up returns the new record with all its given fields |
| `ProductCatalog.AddDuplicateIdShadowed` | app/context/ProductContext.tsx:33 | after adding under an id already present, looking it up still returns the older product |
| `ProductCatalog.InCategory` | app/context/ProductContext.tsx:54-58 | the category query returns an order-preserving subsequence, never longer than the list, holding exactly the products whose lower-cased category equals the lower-cased argument |
| `ProductCatalog.InCategoryIdempotent` | app/context/ProductContext.tsx:54-58 | running the category query again on its own result changes nothing |
| `ProductCatalog.CategoriesLowerCase` | app/context/ProductContext.tsx:28 | every name in the fixed category list is already lower case |
| `ProductCatalog.ProductStore.constructor` | app/context/ProductContext.tsx:26-28 | the catalog starts from the given initial list, with the category list `mens, womens, children, accessories`, a constant no method can change |
| `ProductCatalog.ProductStore.AddProduct` | app/context/ProductContext.tsx:30-36 | the new list is the old one with the new record appended; a fresh id is then found by lookup |
| `ProductCatalog.ProductStore.UpdateProduct` | app/context/ProductContext.tsx:38-44 | the new list is the id-wise merge of the old one; an absent id leaves it identical |
| `ProductCatalog.ProductStore.DeleteProduct` | app/context/ProductContext.tsx:46-48 | the new list is the old one without the id; the id is then not found; an absent id is a no-op |
| `ProductCatalog.ProductStore.GetProductById` | app/context/ProductContext.tsx:50-52 | the lookup gives nothing exactly when no product in the list has the id; otherwise it gives a product with that id, the first one in list order |
| `ProductCatalog.ProductStore.GetProductsByCategory` | app/context/ProductContext.tsx:54-58 | the query gives an order-preserving subsequence of the list holding exactly the products whose lower-cased category equals the lower-cased argument, each as often as in the list |
| `Theme.ActiveTheme` | app/context/ThemeContext.tsx:54-59 | in auto mode the theme is dark exactly when the device reports `"dark"`, and any other value, null included, gives light; in light or dark mode the theme is the mode |
| `Theme.Toggled` | app/context/ThemeContext.tsx:64-70 | the next mode always differs from the current one, and it is auto exactly when the current mode is dark |
| `Theme.PaletteOf` | app/context/ThemeContext.tsx:61-62 | the palette is the dark one exactly when the theme is dark |
| `Theme.PaletteChoice` | app/context/ThemeContext.tsx:54-62 | the dark palette is shown exactly when the mode is dark, or the mode is auto and the device reports dark |
| `Theme.FixedModeIgnoresSystem` | app/context/ThemeContext.tsx:58 | outside auto mode the device scheme has no influence |
| `Theme.ToggleMoves` | app/context/ThemeContext.tsx:64-70 | one toggle always changes the mode, two never return to it, three always do |
| `Theme.TogglesPeriodic` | app/context/ThemeContext.tsx:64-70 | after k toggles the mode depends only on k modulo 3 |
| `Theme.TogglesReachAll` | app/context/ThemeContext.tsx:64-70 | every mode is reached from every mode within fewer than three toggles |
| `Theme.ThemeProvider.constructor` | app/context/ThemeContext.tsx:52 | the initial mode is auto |
| `Theme.ThemeProvider.SetThemeMode` | app/context/ThemeContext.tsx:52 | setting a mode makes the mode exactly that |
| `Theme.ThemeProvider.ToggleTheme` | app/context/ThemeContext.tsx:64-70 | toggling maps auto to light, light to dark and dark to auto, and always changes the mode |
| `Theme.ThemeProvider.CurrentTheme` | app/context/ThemeContext.tsx:61 | the exposed theme is dark in dark mode, light in light mode, and in auto mode dark exactly when the device reports `"dark"` |
| `Theme.ThemeProvider.Colors` | app/context/ThemeContext.tsx:62 | the exposed palette is the dark one exactly when the mode is dark, or the mode is auto and the device reports `"dark"` |
| `Theme.ToggleThrice` | app/context/ThemeContext.tsx:64-70 | three toggles of the provider bring back the starting mode |
| `Auth.LoginUser` | app/context/AuthContext.tsx:26-33 | the logged-in user has id "1" and the given email; its name is the part of the email before the first `@` (the whole email if there is none); it is an admin exactly when `"admin"` occurs in the email |
| `Auth.LoginAccepted` | app/context/AuthContext.tsx:25 | login is accepted exactly when the email is non-empty and the password has at least six characters |
| `Auth.SignupAccepted` | app/context/AuthContext.tsx:40 | signup is accepted exactly when the email and the name are non-empty and the password has at least six characters |
| `Auth.SignupUser` | app/context/AuthContext.tsx:41-46 | the signed-up user has id "1", the given email and name, and is not an admin |
| `Auth.SignupImpliesLogin` | app/context/AuthContext.tsx:40 | the signup guard is the login guard plus a non-empty name |
| `Auth.LoginNameIsLocalPart` | app/context/AuthContext.tsx:30 | for an email with an `@`, the email is the derived name, then `@`, then the rest |
| `Auth.MockPasswordLength` | app/context/AuthContext.tsx:25 | "user@test.com" with a five-character password is refused, and with a six-character one accepted |
| `Auth.MockPlainUserName` | app/context/AuthContext.tsx:30 | "user@test.com" logs in under the name "user" |
| `Auth.MockPlainUserNotAdmin` | app/context/AuthContext.tsx:26 | "user@test.com" is not an admin |
| `Auth.MockAdminUser` | app/context/AuthContext.tsx:26 | "admin@test.com" is an admin |
| `Auth.AuthProvider.constructor` | app/context/AuthContext.tsx:21 | the container starts signed out |
| `Auth.AuthProvider.IsAuthenticated` | app/context/AuthContext.tsx:62 | authenticated exactly when a user is present |
| `Auth.AuthProvider.Login` | app/context/AuthContext.tsx:23-36 | login succeeds exactly when the email is non-empty and the password has at least six characters; on success the user is the derived user; on failure the user is unchanged |
| `Auth.AuthProvider.Signup` | app/context/AuthContext.tsx:38-50 | signup succeeds exactly when the email and name are non-empty and the password has at least six characters; on success the user is the new non-admin user; on failure the user is unchanged |
| `Auth.AuthProvider.Logout` | app/context/AuthContext.tsx:52-54 | logout leaves no user and not authenticated, from any state |
| `FormValidation.ValidEmail` | app/auth/login.tsx:24-27 | an address the pattern accepts has at least five characters and contains both an `@` and a `.` |
| `FormValidation.ValidEmailIffShape` | app/auth/login.tsx:24-27 | the email pattern holds exactly when there is no whitespace, exactly one `@`, a non-empty part before it, and a `.` after it that is neither the first nor the last character of the domain |
| `FormValidation.MatchHasShape` | app/auth/login.tsx:25 | a match of the pattern at given `@` and `.` positions has the shape in words |
| `FormValidation.ShapeHasMatch` | app/auth/login.tsx:25 | a string of that shape matches the pattern |
| `FormValidation.EmailError` | app/auth/login.tsx:37-43 | the email message is empty exactly when the address matches the pattern; it is "Email is required" exactly when the email is empty, and "Please enter a valid email" exactly when it is non-empty and does not match |
| `FormValidation.PasswordError` | app/auth/login.tsx:45-51 | the password message is empty exactly when the password has at least six characters; it is "Password is required" exactly when the password is empty, and "Password must be at least 6 characters" exactly when it has one to five characters |
| `LoginScreen.ValidateLogin` | app/auth/login.tsx:34-56 | each field's message follows its own rule, independent of the other field; errors are flagged exactly when some message is non-empty, that is, when the email is invalid or the password has fewer than six characters |
| `LoginScreen.FormPassesLoginGuard` | app/auth/login.tsx:37-51 | an email and password with no error messages pass the mock login guard |
| `LoginScreen.HandleLogin` | app/auth/login.tsx:29-65 | with errors, they are shown and the user is unchanged; otherwise login is called with the form's values, succeeds, sets the derived user and navigates |
| `SignupScreen.NameError` | app/auth/signup.tsx:39-42 | the name message is empty exactly when the name is non-empty, and otherwise it is "Name is required" |
| `SignupScreen.ConfirmError` | app/auth/signup.tsx:60-66 | the confirmation message is empty exactly when the confirmation is non-empty and equals the password; it is "Please confirm your password" exactly when the confirmation is empty, and "Passwords do not match" exactly when it is non-empty and differs |
| `SignupScreen.ValidateSignup` | app/auth/signup.tsx:36-71 | the name, email, password and confirmation messages follow their own rules, with email and password as on the login form; errors are flagged exactly when some message is non-empty, that is, when the form is not valid |
| `SignupScreen.FormPassesSignupGuard` | app/auth/signup.tsx:39-66 | a form with no error messages passes the mock signup guard, and its confirmation equals its password |
| `SignupScreen.HandleSignup` | app/auth/signup.tsx:31-80 | with errors, they are shown and the user is unchanged; otherwise signup is called with the email, password and name, succeeds, sets the new user and navigates |

## Left out

- Rendering, style sheets, animations and the literal hex colours of the two palettes: these are view code. The palette is modelled only as the choice between the light and the dark table.
- `router.replace` and `Alert.alert`: these are UI side effects. The submit handlers return which of the two would happen, or the errors to show, as a `SubmitOutcome`.
- The `setErrors` calls that reset and then display the error state: the errors are returned instead of being stored in screen state.
- async and Promises: the mock `login` and `signup` never wait, so they are synchronous methods.
- Id generation from `Date.now()`: the id is a parameter, and its uniqueness is not claimed.
- The bundled initial catalog (`../data/products.json`) is not part of this model. The store starts from any given list.
- Cart behaviour: the cart container is not part of this model. It is only imported by the screens.
- The remote (backend-service) auth and catalog variants, `initializeProducts` and any admin allow-list: they are not in the files modelled.
- Re-rendering and subscriptions: readers see the current field directly.
- A `Partial<Product>` key that is present but holds `undefined`: JavaScript's spread would copy that `undefined` over the field. The model treats every present key as holding a value.
- Prices are `real` values. There is no arithmetic on them and no `toFixed` display.
- JavaScript string semantics: `length` counts UTF-16 code units, while the model counts Unicode scalar values. So a password containing characters outside the Basic Multilingual Plane is shorter here than in the source. `toLowerCase` is modelled for ASCII letters only. The `\s` class is modelled exactly.
- LoginScreen.HandleLogin: that `login` is not called when there are errors is shown by the user staying unchanged, not by a record of calls.
- SignupScreen.HandleSignup: that `signup` is not called when there are errors is shown by the user staying unchanged, not by a record of calls.
