/**
 * The definition fetcher's pure part: the request URL built from the word, and
 * the extraction of the first short definition from the parsed JSON response.
 * Sending the request and parsing the body are left to the caller: the parsed
 * tree is an input here.
 */
module Dictionary {
  import opened Common

  /** The dictionary service's entry endpoint; the word is appended to it. */
  const ENTRIES_ENDPOINT := "https://api.dictionaryapi.dev/api/v2/entries/en/"

  /** The lookup URL: the endpoint followed by the word exactly as typed, with no encoding. */
  function DictionaryUrl(word: string): (url: string)
    ensures StartsWith(url, ENTRIES_ENDPOINT)
    ensures |url| == |ENTRIES_ENDPOINT| + |word|
    ensures forall i :: 0 <= i < |word| ==> url[|ENTRIES_ENDPOINT| + i] == word[i]
  {
    ENTRIES_ENDPOINT + word
  }

  /** The word a lookup URL asks for, when the URL is on the entry endpoint. */
  function WordOf(url: string): Option<string>
  {
    StripPrefix(url, ENTRIES_ENDPOINT)
  }

  /** A URL asks for `word` exactly when it is the lookup URL of `word`. */
  lemma WordOfDictionaryUrl(url: string, word: string)
    ensures WordOf(url) == Some(word) <==> url == DictionaryUrl(word)
  {
    StripPrefixConcat(url, ENTRIES_ENDPOINT, word);
  }

  /** Different words give different lookup URLs. */
  lemma DictionaryUrlInjective(a: string, b: string)
    ensures DictionaryUrl(a) == DictionaryUrl(b) ==> a == b
  {
    WordOfDictionaryUrl(DictionaryUrl(a), a);
    WordOfDictionaryUrl(DictionaryUrl(b), b);
  }

  /**
   * The parsed response as the extraction sees it: JSON null, a string, an
   * array, or an object. Of an object only the `shortdef` member is kept (None
   * when the object has no such member) and how many other members it has.
   */
  datatype Json =
    | Null
    | Str(text: string)
    | Arr(items: seq<Json>)
    | Obj(shortdef: Option<Json>, others: nat)

  /** The `Count` of a container: the items of an array, the members of an object. */
  function Count(j: Json): nat
    requires j.Arr? || j.Obj?
  {
    if j.Arr? then |j.items| else j.others + (if j.shortdef.Some? then 1 else 0)
  }

  /** An array or object whose `Count` is zero: the `Count > 0` check fails on it. */
  predicate IsEmptyContainer(j: Json)
  {
    (j.Arr? || j.Obj?) && Count(j) == 0
  }

  /**
   * The response has a shape the extraction's member and index accesses do not
   * fit (a string root, a non-empty object root, a first item that is not an
   * object, a `shortdef` that is a string or a non-empty object, a first entry
   * that is not a string).
   */
  datatype Fault = ShapeMismatch

  /** The `shortdef` value of an object, with a JSON null member read as absent. */
  function ShortdefValue(item: Json): Option<Json>
  {
    if item.Obj? && item.shortdef.Some? && !item.shortdef.value.Null? then item.shortdef else None
  }

  /**
   * Some check of the condition fails, and every check before it could be
   * evaluated: the root is null; or it is an empty array or object; or it is a
   * non-empty array whose first item is an object whose `shortdef` is missing
   * or null; or that `shortdef` is an empty array or object.
   */
  predicate CheckFails(root: Json)
  {
    || root.Null?
    || IsEmptyContainer(root)
    || (root.Arr? && |root.items| > 0 && root.items[0].Obj?
        && (ShortdefValue(root.items[0]).None? || IsEmptyContainer(ShortdefValue(root.items[0]).value)))
  }

  /** All four checks pass: the root is a non-empty array whose first item has a non-empty `shortdef` list. */
  predicate ChecksPass(root: Json)
  {
    root.Arr? && |root.items| > 0
    && ShortdefValue(root.items[0]).Some?
    && ShortdefValue(root.items[0]).value.Arr?
    && |ShortdefValue(root.items[0]).value.items| > 0
  }

  /** The first `shortdef` entry of the first item, once all checks pass. */
  function FirstEntry(root: Json): Json
    requires ChecksPass(root)
  {
    ShortdefValue(root.items[0]).value.items[0]
  }

  /** The response has the dictionary service's schema: null, or an array of objects whose `shortdef` is missing, null or a list of strings. */
  predicate Conforms(root: Json)
  {
    match root
    case Null => true
    case Arr(items) => forall i :: 0 <= i < |items| ==> ItemConforms(items[i])
    case _ => false
  }

  predicate ItemConforms(item: Json)
  {
    item.Obj?
    && (ShortdefValue(item).None?
        || (ShortdefValue(item).value.Arr?
            && forall k :: 0 <= k < |ShortdefValue(item).value.items| ==> ShortdefValue(item).value.items[k].Str?))
  }

  /**
   * The definition selected from a parsed response. The checks run in order and
   * stop at the first that fails, which gives the empty string; when all pass,
   * the first entry of the first item's `shortdef` is the definition.
   */
  function Definition(root: Json): (r: Result<string, Fault>)
    ensures CheckFails(root) ==> r == Ok("")
    ensures ChecksPass(root) ==> r == if FirstEntry(root).Str? then Ok(FirstEntry(root).text) else Err(ShapeMismatch)
    ensures !CheckFails(root) && !ChecksPass(root) ==> r == Err(ShapeMismatch)
    ensures Conforms(root) ==> r.Ok?
  {
    match root
    case Null => Ok("")
    case Obj(_, _) => if Count(root) == 0 then Ok("") else Err(ShapeMismatch)
    case Arr(items) =>
      if |items| == 0 then Ok("")
      else
        (match items[0]
         case Obj(member, _) =>
           if member.None? || member.value.Null? then Ok("")
           else
             (match member.value
              case Arr(entries) =>
                if |entries| == 0 then Ok("")
                else
                  (match entries[0]
                   case Str(text) => Ok(text)
                   case _ => Err(ShapeMismatch))
              case Obj(_, _) => if Count(member.value) == 0 then Ok("") else Err(ShapeMismatch)
              case _ => Err(ShapeMismatch))
         case _ => Err(ShapeMismatch))
    case Str(_) => Err(ShapeMismatch)
  }

  /** A non-empty definition comes only from a response that passed all four checks, and it is that response's first entry. */
  lemma NonEmptyDefinitionPassedChecks(root: Json)
    requires Definition(root).Ok? && Definition(root).value != ""
    ensures ChecksPass(root) && FirstEntry(root) == Str(Definition(root).value)
  {
  }

  /** Only the first item of the response is looked at, and only the first entry of its `shortdef`. */
  lemma OnlyFirstEntryMatters(first: Json, rest: seq<Json>, entry: Json, entries: seq<Json>, others: nat)
    ensures Definition(Arr([first] + rest)) == Definition(Arr([first]))
    ensures Definition(Arr([Obj(Some(Arr([entry] + entries)), others)])) == Definition(Arr([Obj(Some(Arr([entry])), others)]))
  {
  }

  /** A typed reading of the response: each item's `shortdef` list, None when missing or null. */
  datatype Entry = Entry(shortdefs: Option<seq<string>>)

  /** A typed response: None for JSON null, otherwise the array's items. */
  type Response = Option<seq<Entry>>

  /** The same selection on the typed response, with explicit presence checks. */
  function TypedDefinition(response: Response): string
  {
    if response.Some? && |response.value| > 0
       && response.value[0].shortdefs.Some? && |response.value[0].shortdefs.value| > 0
    then response.value[0].shortdefs.value[0]
    else ""
  }

  function EncodeEntry(entry: Entry): (j: Json)
    ensures ItemConforms(j)
  {
    match entry.shortdefs
    case None => Obj(None, 0)
    case Some(defs) => Obj(Some(Arr(seq(|defs|, k requires 0 <= k < |defs| => Str(defs[k])))), 0)
  }

  /** The JSON tree of a typed response. */
  function Encode(response: Response): (j: Json)
    ensures Conforms(j)
  {
    match response
    case None => Null
    case Some(entries) => Arr(seq(|entries|, i requires 0 <= i < |entries| => EncodeEntry(entries[i])))
  }

  function DecodeEntry(item: Json): Entry
    requires ItemConforms(item)
  {
    match ShortdefValue(item)
    case None => Entry(None)
    case Some(list) =>
      var entries := list.items;
      Entry(Some(seq(|entries|, k requires 0 <= k < |entries| => entries[k].text)))
  }

  /** The typed response a conforming JSON tree stands for. */
  function Decode(root: Json): Response
    requires Conforms(root)
  {
    match root
    case Null => None
    case Arr(items) => Some(seq(|items|, i requires 0 <= i < |items| => DecodeEntry(items[i])))
  }

  /** Decoding recovers every typed response from its JSON tree. */
  lemma DecodeEncode(response: Response)
    ensures Decode(Encode(response)) == response
  {
    if response.Some? {
      var entries := response.value;
      var decoded := Decode(Encode(response)).value;
      assert |decoded| == |entries|;
      forall i | 0 <= i < |entries|
        ensures decoded[i] == entries[i]
      {
        var e := entries[i];
        if e.shortdefs.Some? {
          var defs := e.shortdefs.value;
          assert DecodeEntry(EncodeEntry(e)).shortdefs.value == defs;
        }
      }
      assert decoded == entries;
    }
  }

  /** On every conforming response the extraction agrees with the typed selection and never fails. */
  lemma DefinitionMatchesTyped(root: Json)
    requires Conforms(root)
    ensures Definition(root) == Ok(TypedDefinition(Decode(root)))
  {
    if root.Arr? && |root.items| > 0 {
      var item := root.items[0];
      assert ItemConforms(item);
      if ShortdefValue(item).Some? && |ShortdefValue(item).value.items| > 0 {
        assert ShortdefValue(item).value.items[0].Str?;
      }
    }
  }

  /** Every typed response, written as JSON, yields exactly its typed selection. */
  lemma EncodedDefinition(response: Response)
    ensures Definition(Encode(response)) == Ok(TypedDefinition(response))
  {
    DefinitionMatchesTyped(Encode(response));
    DecodeEncode(response);
  }

  /**
   * Sample responses: one definition is returned as is; an empty array, a null
   * root, an empty object and an empty-object `shortdef` give the empty string;
   * an object root with members does not fit the indexing.
   */
  lemma SampleResponses()
    ensures Definition(Arr([Obj(Some(Arr([Str("a quick brown fox")])), 0)])) == Ok("a quick brown fox")
    ensures Definition(Arr([])) == Ok("")
    ensures Definition(Null) == Ok("")
    ensures Definition(Obj(None, 0)) == Ok("")
    ensures Definition(Arr([Obj(Some(Obj(None, 0)), 2)])) == Ok("")
    ensures Definition(Obj(None, 1)) == Err(ShapeMismatch)
  {
  }
}
