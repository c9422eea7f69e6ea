# Neuroset word lookup — a Dafny model of its extraction core

Neuroset takes one word and looks it up twice. First it asks a dictionary
service for the word's entries and prints the first short definition. Then
it fetches a search-results page and prints every absolute web link on it.
Around two small pure steps, the program is network, console and third-party
parsing. This project models those two steps, the dictionary URL, and the
three lazily created singletons that hand out the shared factories:

- `common.dfy`, module `Common`: `Option`, `Result`, an ordinal `StartsWith`,
  and `StripPrefix` with its round-trip lemma.
- `dictionary.dfy`, module `Dictionary`: the lookup URL `DictionaryUrl` and
  its inverse `WordOf`. A `Json` datatype stands for the parsed response:
  null, string, array, or an object of which the model keeps `shortdef` and
  the number of other members. Then comes `Definition`, the extraction. A typed reading (`Entry`, `Response`,
  `TypedDefinition`, `Encode`, `Decode`) serves as an independent reference
  for the extraction, and the lemmas tie the two together.
- `links.dfy`, module `Links`: `Anchor` (an anchor reduced to its optional
  `href`), `Hrefs` (drop anchors without `href`, take the values),
  `KeepWebLinks` (keep the `http://`/`https://` ones) and `ParsePages`, their
  composition. The lemmas cover order, counts and membership.
- `singletons.dfy`, module `Singletons`: `Program`, `HttpClientFactory` and
  `HtmlParserFactory`. Each class's private static `instance` field is a field
  of a `...Statics` object, and each class has an `Instance` method that
  creates the object on the first read and returns the stored one afterwards.

Extraction does not always give the empty string. The code reads the
response through C#'s dynamic binding, which throws on some response shapes:
indexing a non-empty object, reading `shortdef` of a string, or taking
`Count` of a string. `Definition` returns `Err(ShapeMismatch)` there. An
empty object passes through like an empty array. Its `Count` (Json.NET's
number of properties) is 0, so the `Count > 0` check fails and the result is
the empty string. On every response that has the dictionary service's schema
(`Conforms`), `Definition` never fails. Also, `Main` builds its own `Program`
with `new` and never reads `Program.Instance`.

## Model

| member | source | states |
|---|---|---|
| `Dictionary.DictionaryUrl` | Neuroset/Program.cs:122 | the URL begins with the entry endpoint and continues with the word character for character, so its length is the endpoint's plus the word's (no encoding) |
| `Dictionary.WordOfDictionaryUrl` | Neuroset/Program.cs:122 | reading the word back from a URL gives `word` exactly when the URL is `DictionaryUrl(word)`, in both directions |
| `Dictionary.DictionaryUrlInjective` | Neuroset/Program.cs:122 | two different words never give the same lookup URL |
| `Dictionary.Definition` | Neuroset/Program.cs:132-139 | when a check fails (null root, empty array or object, missing or null `shortdef`, empty array or object as `shortdef`), the result is the empty string whatever the rest of the tree holds. When all four pass, it is the first entry of the first item's `shortdef`. Otherwise the shape does not fit the accesses. On any response in the service's schema it never fails |
| `Dictionary.NonEmptyDefinitionPassedChecks` | Neuroset/Program.cs:134-136 | a non-empty definition only comes from a response that passed all four checks, and it is that response's first `shortdef` entry |
| `Dictionary.OnlyFirstEntryMatters` | Neuroset/Program.cs:134-136 | items after the first and `shortdef` entries after the first never change the result |
| `Dictionary.DefinitionMatchesTyped` | Neuroset/Program.cs:132-139 | on every response in the service's schema, the extraction over the dynamic tree gives exactly what the typed selection with explicit presence checks gives |
| `Dictionary.EncodedDefinition` | Neuroset/Program.cs:132-139 | every typed response, written as a JSON tree, yields exactly its typed selection |
| `Dictionary.SampleResponses` | Neuroset/Program.cs:132-139 | a one-item response with one short definition gives that definition. An empty array, a null root, an empty object and an empty-object `shortdef` give the empty string. An object root with members does not fit the indexing |
| `Links.Hrefs` | Neuroset/Program.cs:158-161 | a value is collected exactly when some anchor has it as its `href`, and there are no more values than anchors |
| `Links.KeepWebLinks` | Neuroset/Program.cs:164-166 | a link is kept exactly when it is in the input and has an `http://` or `https://` prefix, and there are no more kept links than input links |
| `Links.ParsePages` | Neuroset/Program.cs:158-168 | every reported link starts with `http://` or `https://`. A link is reported exactly when some anchor's `href` is that web link. There are never more links than anchors |
| `Links.HrefsAppend` | Neuroset/Program.cs:158-161 | the values from two stretches of the document are those of the first followed by those of the second |
| `Links.KeepWebLinksAppend` | Neuroset/Program.cs:164-166 | filtering a concatenation gives the filtered parts, concatenated in the same order |
| `Links.ParsePagesAppend` | Neuroset/Program.cs:158-166 | the links reported for two stretches of the document are those of the first followed by those of the second, so document order is kept |
| `Links.ParsePagesSingle` | Neuroset/Program.cs:159-165 | a single anchor contributes its `href` when it has one that is a web link, and nothing otherwise |
| `Links.AnchorWithoutHrefIgnored` | Neuroset/Program.cs:159 | inserting an anchor without `href` anywhere leaves the result unchanged |
| `Links.WebLinkStartsWithH` | Neuroset/Program.cs:165 | every value that passes the filter is non-empty and begins with `h` |
| `Links.NonWebLinkDropped` | Neuroset/Program.cs:165 | an empty value, or one not starting with a lower-case `h` (relative, `#` fragment, `javascript:`, `mailto:`, upper-case `HTTP://`), fails the filter and is dropped |
| `Links.KeepWebLinksSubsequence` | Neuroset/Program.cs:164-166 | the kept links are a subsequence of the input, in the input's order |
| `Links.KeepWebLinksCounts` | Neuroset/Program.cs:164-166 | nothing is deduplicated: every web link is kept as many times as it occurs, and every other value never |
| `Links.KeepWebLinksIdentity` | Neuroset/Program.cs:164-166 | the filter returns its input unchanged exactly when every input value is a web link |
| `Links.KeepWebLinksIdempotent` | Neuroset/Program.cs:164-166 | filtering the filtered list changes nothing |
| `Links.SamplePage` | Neuroset/Program.cs:158-166 | the anchors `/relative`, `https://x`, `http://y`, `javascript:z` give exactly `https://x`, `http://y`, in that order |
| `Singletons.ProgramStatics.constructor` | Neuroset/Program.cs:13 | the static `instance` field starts out null |
| `Singletons.ProgramStatics.Instance` | Neuroset/Program.cs:17-27 | after a read the field holds the returned object. The first read returns a newly created one; every later read returns the stored object and creates nothing |
| `Singletons.HttpClientFactoryStatics.constructor` | Neuroset/Program.cs:31 | the static `instance` field starts out null |
| `Singletons.HttpClientFactoryStatics.Instance` | Neuroset/Program.cs:35-45 | as for `Program.Instance`, for the HTTP client factory |
| `Singletons.HtmlParserFactoryStatics.constructor` | Neuroset/Program.cs:55 | the static `instance` field starts out null |
| `Singletons.HtmlParserFactoryStatics.Instance` | Neuroset/Program.cs:59-69 | as for `Program.Instance`, for the HTML parser factory |
| `Singletons.SharedFactory` | Neuroset/Program.cs:148 | two reads in a row, as the definition fetcher (line 124) and the link scraper (line 148) make, return the same factory and leave it stored; when nothing was stored yet, that factory is newly created |

## Left out

- The network requests, the body reads and the `using` disposal of the client
  (Neuroset/Program.cs:124-128, 148-152): these are I/O. The parsed JSON tree
  and the anchor sequence are inputs to the model instead.
- JSON parsing with Newtonsoft (line 131) and HTML parsing and anchor
  selection with AngleSharp (lines 155-158) are foreign libraries. The model
  takes their results as the `Json` and `Anchor` datatypes. `Json` has no
  numbers or booleans. Of an object it keeps the `shortdef` member and the
  number of other members.
- Dictionary.Definition: a first `shortdef` entry that is not a string is
  reported as `Err(ShapeMismatch)`. In the source, Json.NET's conversion turns
  a number or boolean into its text, and a JSON null into a null string
  reference. The model's `Json` has no numbers or booleans, and its strings
  are never null. Items that are not objects, a string root and a string
  `shortdef` make the dynamic binder throw, which the model reports as the
  same fault.
- Links.IsWebLink: C#'s `StartsWith(string)` compares with the current
  culture's rules. Under those rules an ignorable code point before the
  prefix may still match. The model compares character by character.
- The search URL (line 146) depends on `HttpUtility.UrlEncode`, a foreign
  call whose behaviour is not visible here. It is not modelled.
- `HttpClientFactory.CreateClient` and `HtmlParserFactory.CreateHtmlParser`
  (lines 47-50, 71-74) only construct foreign library objects. They are not
  modelled.
- `TaskObserver` (lines 77-96) does asynchronous task coordination and
  nothing uses it. `Main` (lines 98-117) is console prompting, printing and
  sequencing. Neither is modelled.
- A null word (end of input at the prompt) is not modelled: strings here are
  never null.
- The singletons' thread safety is not modelled. The getters are unguarded
  check-then-set, and the model has a single thread.
- Exceptions from network or parse failures are not handled by the source.
  They are left out.
