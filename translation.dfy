/**
 * The translation hook: a dotted key is looked up along the nested
 * message table of the current language, falling back to the key itself;
 * `{{word}}` placeholders in the message are filled from the parameters;
 * activity names are translated with the current language's table.
 */
module Translation {
  import opened Wrappers
  import opened Strs
  import opened ActivityTranslations

  /** The values a message table can hold. */
  datatype Json = Str(s: string) | Num(n: int) | Null | Obj(fields: map<string, Json>)

  /** One step of `getNestedValue`'s `reduce`: only an object holding the key leads on. */
  function Step(curr: Option<Json>, key: string): Option<Json>
  {
    if curr.Some? && curr.value.Obj? && key in curr.value.fields then Some(curr.value.fields[key]) else None
  }

  /** `getNestedValue`: the value at the end of the key path, `None` for `undefined`. */
  function NestedValue(obj: Json, path: seq<string>): Option<Json>
  {
    if path == [] then Some(obj) else Step(NestedValue(obj, path[..|path| - 1]), path[|path| - 1])
  }

  /** Following a path in two parts is following the second part from where the first one ends. */
  lemma {:induction false} NestedValueAppend(obj: Json, p: seq<string>, q: seq<string>)
    ensures NestedValue(obj, p + q) == if NestedValue(obj, p).None? then None else NestedValue(NestedValue(obj, p).value, q)
    decreases |q|
  {
    if q == [] {
      assert p + q == p;
    } else {
      var q' := q[..|q| - 1];
      assert (p + q)[..|p + q| - 1] == p + q';
      NestedValueAppend(obj, p, q');
    }
  }

  /**
   * The lookup is `undefined` from the first key that is missing or that
   * is applied to something other than an object, whatever keys follow.
   */
  lemma MissingKeyIsUndefined(obj: Json, p: seq<string>, key: string, q: seq<string>)
    requires NestedValue(obj, p).Some?
    requires !(NestedValue(obj, p).value.Obj? && key in NestedValue(obj, p).value.fields)
    ensures NestedValue(obj, p + [key] + q) == None
  {
    NestedValueAppend(obj, p, [key]);
    NestedValueAppend(obj, p + [key], q);
  }

  /** Each key of the path picks the field of the object reached so far. */
  lemma NestedValueFront(obj: Json, key: string, rest: seq<string>)
    ensures NestedValue(obj, [key] + rest) ==
      if obj.Obj? && key in obj.fields then NestedValue(obj.fields[key], rest) else None
  {
    NestedValueAppend(obj, [key], rest);
    assert [key][..0] == [];
  }

  /** A parameter value. */
  datatype Param = PStr(text: string) | PNum(n: int)

  /** `String(params[key] || '')`: a missing parameter, an empty text and the number 0 all give `''`. */
  function ParamText(params: map<string, Param>, word: string): (r: string)
    ensures word !in params ==> r == ""
    ensures word in params && params[word].PStr? ==> r == params[word].text
    ensures word in params && params[word] == PNum(0) ==> r == ""
  {
    if word !in params then ""
    else match params[word]
      case PStr(text) => text
      case PNum(n) => if n == 0 then "" else IntToString(n)
  }

  /** `\w`. */
  predicate IsWordChar(c: char)
  {
    'a' <= c <= 'z' || 'A' <= c <= 'Z' || '0' <= c <= '9' || c == '_'
  }

  /** The length of the run of word characters at the start of `s`. */
  function WordRun(s: string): (n: nat)
    ensures n <= |s| && forall i :: 0 <= i < n ==> IsWordChar(s[i])
    ensures n < |s| ==> !IsWordChar(s[n])
  {
    if s != [] && IsWordChar(s[0]) then 1 + WordRun(s[1..]) else 0
  }

  /** The length of the word of a `{{word}}` placeholder starting the text, if one does. */
  function PlaceholderAt(s: string): (r: Option<nat>)
    ensures r.Some? ==> r.value >= 1 && |s| >= r.value + 4
  {
    if |s| >= 2 && s[0] == '{' && s[1] == '{' then
      var n := WordRun(s[2..]);
      if n > 0 && |s| >= n + 4 && s[n + 2] == '}' && s[n + 3] == '}' then Some(n) else None
    else None
  }

  /**
   * `str.replace(/\{\{(\w+)\}\}/g, ...)`: from left to right, every
   * placeholder is replaced by its parameter's text and every other
   * character is kept.
   */
  function Interpolate(s: string, params: map<string, Param>): string
    decreases |s|
  {
    if s == [] then ""
    else match PlaceholderAt(s)
      case Some(n) => ParamText(params, s[2..n + 2]) + Interpolate(s[n + 4..], params)
      case None => [s[0]] + Interpolate(s[1..], params)
  }

  /** `interpolateString`: a message without parameters is returned as it is. */
  function InterpolateString(str: string, params: Option<map<string, Param>>): (r: string)
    ensures params.None? ==> r == str
  {
    match params
    case None => str
    case Some(p) => Interpolate(str, p)
  }

  /** A piece of a message: text without braces, or a placeholder naming a parameter. */
  datatype Piece = Lit(text: string) | Hole(name: string)

  predicate WellFormed(piece: Piece)
  {
    match piece
    case Lit(text) => '{' !in text
    case Hole(name) => name != [] && forall i :: 0 <= i < |name| ==> IsWordChar(name[i])
  }

  /** The message text the pieces spell. */
  function Template(pieces: seq<Piece>): string
  {
    if pieces == [] then ""
    else
      (match pieces[0]
       case Lit(text) => text
       case Hole(name) => "{{" + name + "}}") + Template(pieces[1..])
  }

  /** The text the pieces stand for once every placeholder is filled in. */
  function Fill(pieces: seq<Piece>, params: map<string, Param>): string
  {
    if pieces == [] then ""
    else
      (match pieces[0]
       case Lit(text) => text
       case Hole(name) => ParamText(params, name)) + Fill(pieces[1..], params)
  }

  /**
   * Interpolating a message made of literal text and placeholders keeps
   * the text and puts each parameter's text where its placeholder was.
   */
  lemma {:induction false} InterpolateTemplate(pieces: seq<Piece>, params: map<string, Param>)
    requires forall k :: 0 <= k < |pieces| ==> WellFormed(pieces[k])
    ensures Interpolate(Template(pieces), params) == Fill(pieces, params)
  {
    if pieces != [] {
      var rest := Template(pieces[1..]);
      InterpolateTemplate(pieces[1..], params);
      match pieces[0]
      case Lit(text) =>
        InterpolateLiteral(text, rest, params);
      case Hole(name) =>
        InterpolatePlaceholder(name, rest, params);
    }
  }

  /** Text without an opening brace passes through unchanged. */
  lemma {:induction false} InterpolateLiteral(text: string, rest: string, params: map<string, Param>)
    requires '{' !in text
    ensures Interpolate(text + rest, params) == text + Interpolate(rest, params)
    decreases |text|
  {
    if text != [] {
      var s := text + rest;
      assert s[0] == text[0] && s[0] != '{';
      assert s[1..] == text[1..] + rest;
      InterpolateLiteral(text[1..], rest, params);
    } else {
      assert text + rest == rest;
    }
  }

  /** A placeholder is replaced by its parameter's text. */
  lemma InterpolatePlaceholder(name: string, rest: string, params: map<string, Param>)
    requires name != [] && forall i :: 0 <= i < |name| ==> IsWordChar(name[i])
    ensures Interpolate("{{" + name + "}}" + rest, params) == ParamText(params, name) + Interpolate(rest, params)
  {
    var s := "{{" + name + "}}" + rest;
    assert s[2..] == name + ("}}" + rest);
    WordRunOf(name, "}}" + rest);
    var n := |name|;
    assert s[n + 2] == '}' && s[n + 3] == '}';
    assert PlaceholderAt(s) == Some(n);
    assert s[2..n + 2] == name;
    assert s[n + 4..] == rest;
  }

  lemma {:induction false} WordRunOf(word: string, rest: string)
    requires forall i :: 0 <= i < |word| ==> IsWordChar(word[i])
    requires rest != [] && !IsWordChar(rest[0])
    ensures WordRun(word + rest) == |word|
    decreases |word|
  {
    if word != [] {
      assert (word + rest)[1..] == word[1..] + rest;
      WordRunOf(word[1..], rest);
    } else {
      assert word + rest == rest;
    }
  }

  /**
   * `t(key, params)`: the key split at dots is looked up in the current
   * language's messages; an unknown key comes back as itself. `None`
   * stands for the `TypeError` of filling parameters into a value that is
   * not a string.
   */
  function T(messages: Json, key: string, params: Option<map<string, Param>>): (r: Option<Json>)
    ensures NestedValue(messages, Split(key, '.')).None? ==> r == Some(Str(key))
    ensures NestedValue(messages, Split(key, '.')).Some? && params.None? ==> r == NestedValue(messages, Split(key, '.'))
    ensures r.None? <==> NestedValue(messages, Split(key, '.')).Some? && params.Some? && !NestedValue(messages, Split(key, '.')).value.Str?
  {
    match NestedValue(messages, Split(key, '.'))
    case None => Some(Str(key))
    case Some(value) =>
      if params.None? then Some(value)
      else if value.Str? then Some(Str(InterpolateString(value.s, params)))
      else None
  }

  /** `translateActivity`: the activity's name in the current language; it reads back to the activity. */
  function TranslateActivity(activity: string, currentLanguage: Language): (r: string)
    ensures (exists i :: 0 <= i < |TableOf(currentLanguage)| && TableOf(currentLanguage)[i].activity == activity)
      ==> GetOriginalActivity(r, currentLanguage) == activity
  {
    RoundTripsOnTable(currentLanguage);
    GetActivityTranslation(activity, currentLanguage)
  }

  /** `getOriginalActivity` of the hook: the activity a name of the current language stands for. */
  function OriginalActivity(translatedActivity: string, currentLanguage: Language): (r: string)
    ensures (exists i :: 0 <= i < |TableOf(currentLanguage)| && TableOf(currentLanguage)[i].shown == translatedActivity)
      ==> GetActivityTranslation(r, currentLanguage) == translatedActivity
  {
    RoundTripsOnTable(currentLanguage);
    GetOriginalActivity(translatedActivity, currentLanguage)
  }
}
