# Product catalogue and ability page, modelled in Dafny

The application has two pages. The first is a product catalogue, app/page.tsx. It keeps a list of
products, each with an id, a name, a price and a stock. Products are added and edited through a
validated form, components/ProductForm.tsx, and deleted after a confirmation step. The page shows
the list filtered by a case-sensitive search on the name and sorted by one of four numeric orders
or left as it is. The second page, app/pokemon/page.tsx, loads an ability list and one ability's
detail from a public API. It shows each of the two in its own section, where a spinner while
loading takes precedence over an error, and an error over the content.

The model is split into these modules:

- `Types`: the records of lib/types.ts and the sort option of components/SortDropdown.tsx.
- `Arrays`: `filter`, `some` and `find`/`findIndex` over sequences, with the facts about them that the pages need.
- `Text`: `trim`, `toLowerCase`, `toUpperCase`, `includes` and the one-character `replace`, on ASCII.
- `Numbers`: `parseInt` (radix 10), `parseFloat` and `toString` for numbers. `None` stands for NaN.
- `ProductView`: the displayed list, that is, the filter and then the stable sort on a copy.
- `ProductForms`: the three field rules, the error map built from them, and the form component as a class with `formData` and `errors`.
- `HomePage`: the store's operations as functions, and the page component as a class with `products`, `editing`, `deleting` and the form it renders. Its invariant `Valid()` says that ids are distinct, names are distinct ignoring case, no name is blank, and price and stock are above 0. It holds for the seed list. The form's submit (`SubmitForm`, validation followed by the page's `handleSubmit`), the delete handlers and the edit handlers keep it. `handleSubmit` on its own checks nothing: it keeps `Valid()` only for data that passed the form's rules against the current list and edit target (and, for a create, an unused id), and its contract says so.
- `Pokemon`: the English-effect choice, the name formatting, the panel each section shows, and the page's state as a class whose two fetch completions touch only their own section.

Prices are `real` and stocks `int`, both exact: the rounding of JavaScript's 64-bit floating point
is not modelled (see "Left out"). `toString` of a whole number prints plain digits below 10^21 and
the exponent form ("1e+21", "1.5e+22") from 10^21 up, as JavaScript does. `parseFloat` reads both
forms back, but `parseInt` stops at the point or the "e" of the exponent form. So resubmitting an
edited product whose stock is 10^21 or more, unchanged, replaces the stock by its first digit
(`HomePage.ResubmitLargeStockAltersIt`). Deleting the product being edited leaves it as the edit
target, and the next submit of the form then leaves the list as the delete left it; a valid submit
still clears the edit target and the form (`HomePage.DeleteWhileEditing`). The
fetches' outcomes are parameters. The id `Date.now().toString()` is a parameter too, and the
precondition of `SubmitForm` requires it to be unused when the submit creates a product.

## Model

| member | source | states |
|---|---|---|
| Arrays.Filter | app/page.tsx:35 | the result is no longer than the input and every element kept passes the test |
| Arrays.FilterIsSubsequence | app/page.tsx:35 | `filter` only deletes: its result is an order-preserving subsequence of its input |
| Arrays.FilterCount | app/page.tsx:98 | each value passing the test keeps all its copies; every other value keeps none |
| Arrays.FilterMembers | app/page.tsx:35 | an element is in the filtered list exactly when it is in the input and passes |
| Arrays.FilterKeepsAll | app/page.tsx:98 | when every element passes, the result is the input unchanged |
| Arrays.FilterConcat | app/page.tsx:98 | filtering a concatenation is concatenating the filtered halves |
| Arrays.Any | components/ProductForm.tsx:46-50 | `some` is true exactly when some element passes the test |
| Arrays.FindIndex | app/pokemon/page.tsx:64-66 | the result is the first index that passes, or none when no element passes |
| Text.Trim | components/ProductForm.tsx:42 | definition of `trim`: the text without its leading and trailing white space (proved about in `Text.TrimEmptyIffBlank`) |
| Text.ToLower | components/ProductForm.tsx:48 | definition of `toLowerCase`, character by character on ASCII |
| Text.ToUpper | app/pokemon/page.tsx:107 | definition of `toUpperCase`, character by character on ASCII |
| Text.Includes | app/page.tsx:35 | definition of `includes`: the search text occurs at some position, the empty text at every position |
| Text.LeadingSpaces | components/ProductForm.tsx:42 | the count of white-space characters at the start, the next one not being white space |
| Text.TrailingSpaces | components/ProductForm.tsx:42 | the length up to the last character that is not white space |
| Text.TrimEmptyIffBlank | components/ProductForm.tsx:42 | the trimmed text is empty exactly when every character is white space |
| Text.ReplaceFirst | app/pokemon/page.tsx:151 | the length is kept, and text without the character is unchanged |
| Text.ReplaceFirstAt | app/pokemon/page.tsx:151 | only the first occurrence is replaced; later occurrences stay |
| Numbers.ParseInt | components/ProductForm.tsx:70 | definition of `parseInt` (also used at app/page.tsx:70): white space, one sign, then the longest digit run; no digit is NaN (proved about in the `ParseIntOf…` lemmas and `ProductForms.StockPrefixExamples`) |
| Numbers.ParseFloat | components/ProductForm.tsx:60 | definition of `parseFloat` (also used at app/page.tsx:69): white space, one sign, then the unsigned literal |
| Numbers.ParseUnsignedFloat | components/ProductForm.tsx:60 | definition: digits, optionally a point and more digits, optionally an exponent; no digit before the exponent is NaN |
| Numbers.PointLiteral | components/ProductForm.tsx:60 | definition: the literal from the point on; a point with no digit on either side is NaN |
| Numbers.Exponent | components/ProductForm.tsx:60 | definition: "e" or "E", an optional sign and at least one digit; anything else counts as no exponent |
| Numbers.Shift | components/ProductForm.tsx:60 | definition: the decimal point moved by the exponent, one place at a time (proved about in `Numbers.ShiftUp`) |
| Numbers.ShiftUp | components/ProductForm.tsx:60 | moving the point of a whole number `e` places right multiplies it by 10^e |
| Numbers.IntToString | components/ProductForm.tsx:30 | definition of `toString` for an integer: a minus sign for a negative one, then the magnitude |
| Numbers.MagnitudeToString | components/ProductForm.tsx:29-30 | definition: plain digits below 10^21, the exponent form from 10^21 up |
| Numbers.StripZeros | components/ProductForm.tsx:29-30 | a positive number is its significant part, which does not end in 0, times 10 to its count of trailing zeros |
| Numbers.ExponentForm | components/ProductForm.tsx:29-30 | definition: first significant digit, the other significant digits after a point when there are any, "e+" and the exponent |
| Numbers.NumberToString | components/ProductForm.tsx:29 | definition of `toString` for a price: whole numbers print as integers do (proved in `Numbers.NumberToStringOfWhole`) |
| Numbers.DigitRun | components/ProductForm.tsx:70 | the scan covers exactly the leading digits and stops at the first non-digit |
| Numbers.NatToString | components/ProductForm.tsx:30 | a number prints as a non-empty text that starts with a digit |
| Numbers.NatToStringValue | components/ProductForm.tsx:30 | the printed digits denote the number printed |
| Numbers.ParseIntOfSignedDigits | app/page.tsx:70 | `parseInt` reads an optionally negative run of digits as the integer it denotes |
| Numbers.ParseFloatOfSignedDigits | app/page.tsx:69 | `parseFloat` reads an optionally negative run of digits as the whole number it denotes |
| Numbers.UnsignedFloatOfDigits | app/page.tsx:69 | a digit run with no point and no exponent is read as a whole number |
| Numbers.DigitRunUpTo | components/ProductForm.tsx:60 | the digit scan of digits followed by a non-digit stops exactly at the non-digit |
| Numbers.DigitsValueConcat | components/ProductForm.tsx:60 | the value of concatenated digits is the first part shifted by the second's length plus the second |
| Numbers.NatToStringLeading | components/ProductForm.tsx:30 | a positive number's first printed digit is not 0 |
| Numbers.ExponentOfDigits | components/ProductForm.tsx:60 | "e+" followed by the digits of `e` is read as the exponent `e` |
| Numbers.ExponentFormLeading | components/ProductForm.tsx:70 | the exponent form starts with one digit that is not 0, and the next character is a point or "e", so the digit scan reads one digit |
| Numbers.ExponentFormShape | components/ProductForm.tsx:29-30 | the exponent form is a digit, the other significant digits after a point or none, "e+" and an exponent, and those digits with the point moved by the exponent make the number |
| Numbers.UnsignedFloatOfWhole | components/ProductForm.tsx:60 | digits not followed by a point are read as their value with the point moved by the exponent |
| Numbers.UnsignedFloatOfPoint | components/ProductForm.tsx:60 | digits, a point, digits and a tail are read as the whole part plus the fraction, with the point moved by the tail's exponent |
| Numbers.PointLiteralOf | components/ProductForm.tsx:60 | the literal after a point is the fraction's digits scaled by their count, with the exponent applied |
| Numbers.UnsignedFloatOfDigitExponent | components/ProductForm.tsx:60 | "de+N" is read as d times 10^N |
| Numbers.UnsignedFloatOfPointExponent | components/ProductForm.tsx:60 | "d.fffe+N" is read as d.fff times 10^N |
| Numbers.UnsignedFloatOfExponentForm | components/ProductForm.tsx:29-30 | `parseFloat` reads the exponent form of `n` back as `n` |
| Numbers.UnsignedFloatOfMagnitude | components/ProductForm.tsx:29-30 | both printed forms of a whole magnitude start with a digit and read back as it |
| Numbers.ParseIntOfIntToString | components/ProductForm.tsx:30 | `parseInt(i.toString())` gives `i` back for every integer of magnitude below 10^21 |
| Numbers.ParseIntOfLargeIntToString | components/ProductForm.tsx:30 | from 10^21 up in magnitude, `parseInt(i.toString())` gives a number from 1 to 9 with the sign of `i`, never `i` |
| Numbers.ParseFloatOfIntToString | components/ProductForm.tsx:30 | `parseFloat(i.toString())` gives `i` back for every integer, the exponent form included |
| Numbers.NumberToStringOfWhole | components/ProductForm.tsx:29 | a whole number prints exactly as the integer it is |
| Numbers.ParseFloatOfWhole | components/ProductForm.tsx:29 | `parseFloat(x.toString())` gives a whole `x` back |
| ProductView.Matching | app/page.tsx:31-36 | definition: the products whose name includes the search text, or all of them for an empty search (proved about in `ProductView.MatchingSpec`) |
| ProductView.SortKey | app/page.tsx:41-52 | definition: each comparator as an ascending key, the price or stock, negated for the descending options (proved about in `ProductView.SortKeyEqual`) |
| ProductView.FilteredAndSorted | app/page.tsx:30-58 | definition: the filter, then no sort for 'default' or the stable sort by the option's key (proved about in `ProductView.FilteredAndSortedSpec`) |
| ProductView.Insert | app/page.tsx:39-55 | inserting adds exactly the one element: the multiset grows by it |
| ProductView.SortBy | app/page.tsx:39-55 | the sort is a permutation of its input |
| ProductView.InsertKeysAbove | app/page.tsx:39-55 | a lower bound on the keys of the list and of the inserted element bounds every key after the insertion |
| ProductView.InsertAscending | app/page.tsx:39-55 | inserting into an ordered list keeps it ordered by the key |
| ProductView.SortByAscending | app/page.tsx:39-55 | the sorted list is non-decreasing in the comparator's key |
| ProductView.InsertStable | app/page.tsx:39-55 | inserting puts the element ahead of its equal-key elements and changes no other key's order |
| ProductView.SortByStable | app/page.tsx:39-55 | the sort is stable: for every key, the elements with that key keep their relative order |
| ProductView.MatchingSpec | app/page.tsx:31-36 | an empty search keeps the list; otherwise exactly the products whose name contains the search (case-sensitive) remain, all copies, in order |
| ProductView.FilteredAndSortedSpec | app/page.tsx:30-58 | the display is a permutation of the filtered list; 'default' keeps the filtered order; each other option orders by price or stock, ascending or descending, and keeps the filtered order among ties |
| ProductView.SortKeyEqual | app/page.tsx:41-52 | equal comparator keys are equal prices (price options) or equal stocks (stock options) |
| ProductView.WithKeyPrice | app/page.tsx:41-46 | under a price option, the products with one key are exactly the products with one price, in order |
| ProductView.WithKeyStock | app/page.tsx:47-52 | under a stock option, the products with one key are exactly the products with one stock, in order |
| ProductView.SortedFieldStable | app/page.tsx:39-55 | sorting by price keeps the filtered order among products of equal price, sorting by stock among products of equal stock; 'default' keeps both |
| ProductForms.IsDuplicate | components/ProductForm.tsx:46-50 | definition: some product with another id (or any product when nothing is edited) has the same lower-cased name (proved about in `ProductForms.NameErrorSpec`) |
| ProductForms.NameError | components/ProductForm.tsx:42-54 | definition of the name rule: "required" for a blank name, else "already used" for a duplicate |
| ProductForms.PriceError | components/ProductForm.tsx:57-64 | definition of the price rule: "required" for a blank price, else "positive number" for NaN or a value not above 0 |
| ProductForms.StockError | components/ProductForm.tsx:67-74 | definition of the stock rule, with `parseInt` |
| ProductForms.Errors | components/ProductForm.tsx:38-77 | definition: the three rules' messages added to an empty map in the order name, price, stock (proved about in `ProductForms.ErrorsByField`) |
| ProductForms.SeedData | components/ProductForm.tsx:25-34 | definition: the edit target's name, printed price and printed stock, or empty fields (proved about in `HomePage.SeedDataReadsBack`) |
| ProductForms.WithField | components/ProductForm.tsx:101-129 | definition: one field replaced by the typed text, the others kept |
| ProductForms.ErrorsByField | components/ProductForm.tsx:38-77 | each field of the error map holds that field's rule message, and the map is empty exactly when all three rules pass |
| ProductForms.NameErrorSpec | components/ProductForm.tsx:42-54 | a blank name is "required"; otherwise a lower-cased name match on a product with another id is "already used"; otherwise no error; each as an if-and-only-if |
| ProductForms.OwnNameIsNoDuplicate | components/ProductForm.tsx:46-50 | with distinct names, the edited product's own name does not count as a duplicate of itself |
| ProductForms.PriceErrorSpec | components/ProductForm.tsx:57-64 | a blank price is "required"; NaN or a value not above 0 is "positive number"; otherwise no error |
| ProductForms.StockErrorSpec | components/ProductForm.tsx:67-74 | the same rule for the stock, read with `parseInt` |
| ProductForms.StockPrefixExamples | components/ProductForm.tsx:70-71 | "0.5" is rejected as stock because it reads as 0; "3abc" is accepted because it reads as 3 |
| ProductForms.NoKeysIffEmpty | components/ProductForm.tsx:77 | a map has no keys exactly when it is empty |
| ProductForms.CollectErrors | components/ProductForm.tsx:39-74 | starting from no errors, each field gets its rule's message exactly when the rule produced one |
| ProductForms.ProductForm.constructor | components/ProductForm.tsx:18-23 | the form starts with empty fields and no errors |
| ProductForms.ProductForm.Seed | components/ProductForm.tsx:25-36 | the fields take the target's name, printed price and printed stock, or are cleared; the errors are cleared |
| ProductForms.ProductForm.SetField | components/ProductForm.tsx:101 | one field takes the typed text; the others and the errors stay |
| ProductForms.ProductForm.Validate | components/ProductForm.tsx:38-78 | the stored errors are the rule map for the current fields, and the result is true exactly when the map is empty |
| ProductForms.ProductForm.Submit | components/ProductForm.tsx:80-86 | a valid form hands its data on and clears its fields; an invalid one hands nothing on and keeps its fields |
| HomePage.Parsed | app/page.tsx:66-71 | definition: the product with the id, the name and `parseFloat`/`parseInt` of the fields (also at app/page.tsx:78-83) |
| HomePage.Created | app/page.tsx:77-84 | definition of the create branch (proved about in `HomePage.CreatedSpec`) |
| HomePage.Updated | app/page.tsx:63-74 | definition of the update branch (proved about in `HomePage.UpdatedSpec`) |
| HomePage.Removed | app/page.tsx:98 | definition of the confirmed delete (proved about in `HomePage.RemovedSpec`) |
| HomePage.ValidIsParsed | components/ProductForm.tsx:38-78 | a form that passes validation parses, has a non-blank name and a price and stock above 0, and its name clashes with no product of another id |
| HomePage.SeedWellFormed | app/page.tsx:15-19 | the seed list satisfies the page invariant |
| HomePage.CreatedSpec | app/page.tsx:77-84 | create appends exactly one product, with the new id and the parsed fields, after the unchanged list |
| HomePage.CreatePreservesWellFormed | app/page.tsx:77-84 | a create that passed validation, with an unused id, keeps the invariant |
| HomePage.WellFormedSnoc | app/page.tsx:84 | appending a product that clashes with no listed id or name, and has a non-blank name and a positive price and stock, keeps the invariant |
| HomePage.UpdatedSpec | app/page.tsx:63-74 | update keeps the length, every id and every other element; the target id's elements take the parsed fields |
| HomePage.UpdatePreservesWellFormed | app/page.tsx:63-74 | an update that passed validation for the edit target keeps the invariant |
| HomePage.WellFormedReplace | app/page.tsx:63-74 | replacing the target id's elements by a product with that id and fields that clash with no other product keeps the invariant |
| HomePage.ResubmitUnchangedIsNoOp | app/page.tsx:60-75 | resubmitting a product's seeded fields unchanged passes validation and leaves the list as it was, for a whole price and a stock below 10^21 |
| HomePage.ResubmitLargeStockAltersIt | components/ProductForm.tsx:30 | for a whole price and a stock of 10^21 or more, the unchanged resubmit passes validation but the update replaces the stock by a number from 1 to 9 and changes nothing else |
| HomePage.SeedDataReadsBack | components/ProductForm.tsx:25-31 | the fields seeded from a product with a whole price parse; name and price read back as they were, and the whole product reads back exactly when its stock is below 10^21 in magnitude; they pass the price and stock rules when those are above 0 |
| HomePage.PrintedPricePasses | components/ProductForm.tsx:57-64 | a whole price above 0, printed, passes the price rule |
| HomePage.PrintedStockPasses | components/ProductForm.tsx:67-74 | a stock above 0, printed, passes the stock rule |
| HomePage.NotBlankFromDigit | components/ProductForm.tsx:42 | text that starts with a digit is not blank |
| HomePage.UpdatedToSame | app/page.tsx:63-74 | with distinct ids, an update whose fields parse to the target as it is changes nothing |
| HomePage.RemovedSpec | app/page.tsx:98 | delete keeps an order-preserving subsequence without the target id, with every other product's copies intact |
| HomePage.RemovedOne | app/page.tsx:98 | with distinct ids, delete removes exactly the one element at the target's position |
| HomePage.UpdateAfterRemoveIsNoOp | app/page.tsx:63-74 | once the edit target's id is deleted, an update for it changes nothing |
| HomePage.RemovePreservesWellFormed | app/page.tsx:96-101 | a delete keeps the invariant |
| HomePage.FilterKeepsWellFormed | app/page.tsx:98 | any filter of a well-formed list is well formed |
| HomePage.WellFormedTail | app/page.tsx:98 | dropping the first product keeps the invariant |
| HomePage.WellFormedCons | app/page.tsx:98 | a product that clashes with none of a well-formed list, put in front of it, keeps the invariant |
| HomePage.Home.constructor | app/page.tsx:15-24 | the page starts with the seed list, no edit target, no delete target and an empty form |
| HomePage.Home.HandleSubmit | app/page.tsx:60-86 | with an edit target the list becomes the update and the target is cleared; without one the list becomes the create; the invariant is kept for data that passed the form's rules (and an unused id for a create) |
| HomePage.Home.SubmitForm | components/ProductForm.tsx:80-86 | the form's errors are the rule map; a valid form updates or creates and clears the fields and the edit target, an invalid one leaves the list, the targets and the fields as they were; the invariant is kept |
| HomePage.Home.Edit | app/page.tsx:88-90 | the product becomes the edit target; a new target seeds the form from it and clears the errors |
| HomePage.Home.CancelEdit | app/page.tsx:103-105 | the edit target is cleared, and the form is cleared when there was one |
| HomePage.Home.MarkDelete | app/page.tsx:92-94 | the product becomes the delete target; the list is unchanged |
| HomePage.Home.CancelDelete | app/page.tsx:174 | the delete target is dropped; the list is unchanged |
| HomePage.Home.ConfirmDelete | app/page.tsx:96-101 | with a target, the list loses its id and the target is cleared; with none, nothing changes; the invariant is kept |
| HomePage.DeleteWhileEditing | app/page.tsx:96-101 | deleting the edited product leaves it as the edit target, and the next submit leaves the list as the delete left it |
| Pokemon.EnglishEffect | app/pokemon/page.tsx:62-68 | definition of `getEnglishEffect` with `find` (proved about in `Pokemon.EnglishEffectSpec`) |
| Pokemon.DisplayName | app/pokemon/page.tsx:151 | definition: the first hyphen replaced by a space (proved about in `Pokemon.DisplayNameExample` and `Text.ReplaceFirstAt`) |
| Pokemon.DetailTitle | app/pokemon/page.tsx:107 | definition: the display name upper-cased |
| Pokemon.Rows | app/pokemon/page.tsx:147-157 | definition: one row per ability, numbered from 1, with its display name and URL |
| Pokemon.ListPanel | app/pokemon/page.tsx:130-161 | definition of the list section's precedence (proved about in `Pokemon.PanelPrecedence`) |
| Pokemon.DetailPanel | app/pokemon/page.tsx:96-117 | definition of the detail section's precedence, `null` without a detail (proved about in `Pokemon.PanelPrecedence`) |
| Pokemon.FailureMessage | app/pokemon/page.tsx:32-36 | definition: the status message for a non-2xx response, an `Error`'s message, or the generic message |
| Pokemon.EnglishEffectSpec | app/pokemon/page.tsx:62-68 | no detail gives null; no English entry gives the fallback; otherwise the first English entry's effect, or the fallback when that effect is empty |
| Pokemon.DisplayNameExample | app/pokemon/page.tsx:151 | "a-b-c" is shown as "a b-c": only the first hyphen becomes a space |
| Pokemon.PanelPrecedence | app/pokemon/page.tsx:96-117 | each section shows the spinner exactly while loading, then a non-empty error with its message, then its content (numbered rows with display names, or the detail with its upper-cased title and English effect); the detail section shows nothing exactly when nothing is loading, no error is set and no detail arrived |
| Pokemon.PokemonPage.constructor | app/pokemon/page.tsx:19-24 | both sections start loading, with no data and no errors |
| Pokemon.PokemonPage.FinishListFetch | app/pokemon/page.tsx:28-40 | the list's loading ends with its results or its error message; the detail section is unchanged |
| Pokemon.PokemonPage.FinishDetailFetch | app/pokemon/page.tsx:43-55 | the detail's loading ends with its data or its error message; the list section is unchanged |
| Pokemon.ListFailsDetailLoads | app/pokemon/page.tsx:130-135 | a failed list next to a loaded detail shows the list's error and the detail's content |

## Left out

- The fetches themselves, the JSON decoding, `async` scheduling and the interleaving of the two requests are not modelled; each completion is a method that takes the outcome as a parameter.
- The 300 ms debounce of the search text is not modelled (hooks/useDebounce is not part of this model). The displayed list is a function of the debounced text.
- `Date.now().toString()` is a parameter. Its uniqueness against the existing ids is a precondition of `SubmitForm` on the create path only, since the source reads the clock only there.
- Strings are sequences of characters. White space, `toLowerCase` and `toUpperCase` are modelled on ASCII only; other Unicode white space and case mappings are not.
- `parseInt` is modelled for decimal digits only; a "0x" prefix, which JavaScript reads as hexadecimal, reads as 0 here.
- `parseFloat` does not model "Infinity".
- NaN is not a value of the model. `HomePage.Home.HandleSubmit` requires both fields to parse. Its only caller, the form, guarantees this.
- Floating-point rounding is not modelled; `real` and `int` are exact. Above 2^53 JavaScript rounds what `parseInt` and `parseFloat` read (`parseInt("9007199254740993")` is 9007199254740992), and the model does not.
- Numbers.NumberToString: a number that is not whole prints its exact fraction truncated to 20 digits, instead of the shortest round-tripping form, and the exponent form below 1e-6 is not modelled. So the price round trip is proved only for whole prices.
- Numbers.IntToString: the exponent form from 10^21 up is modelled. So `Numbers.ParseIntOfIntToString` holds only below 10^21 in magnitude, and `Numbers.ParseIntOfLargeIntToString` states what happens above.
- HomePage.ResubmitUnchangedIsNoOp: stated only for a whole price and a stock below 10^21. The first restriction is the one on `NumberToString` above. The second is real program behaviour, stated in `HomePage.ResubmitLargeStockAltersIt`.
- The presentation components are not modelled: ProductCard (its stock badges and price formatting), DeleteModal's markup, SearchBar, the empty-list messages (app/page.tsx:143-154) and the form's button labels.
- `isLoading` of the catalogue page (app/page.tsx:24) is never set to true, so its spinner branch is left out.
- HomePage.Home.Edit: React's effect compares the edit target by reference, while the model compares by value. Under `Valid()` ids are distinct, so two equal values are the same list element.
- The form's `onCancel` button is `HomePage.Home.CancelEdit`.
- The form's `validateForm` computes each field's message inline. `ProductForms.ProductForm.Validate` takes the same messages from the per-field rule functions and adds them in the same order through `ProductForms.CollectErrors`.
