/** lib/gglib/enum.rb: Enumeration, a list of symbols with a CamelCase constant per
    element, synonyms, membership and lookup. Case mapping is ASCII. */
module Enums {
  import opened Base

  predicate Upper(c: char) {
    'A' <= c <= 'Z'
  }

  predicate Lower(c: char) {
    'a' <= c <= 'z'
  }

  predicate Digit(c: char) {
    '0' <= c <= '9'
  }

  function Upcase(c: char): (u: char)
    ensures !Lower(u)
  {
    if Lower(c) then (c as int - 32) as char else c
  }

  function Downcase(c: char): (d: char)
    ensures !Upper(d)
  {
    if Upper(c) then (c as int + 32) as char else c
  }

  function DowncaseAll(s: string): (r: string)
    ensures |r| == |s| && forall i :: 0 <= i < |s| ==> r[i] == Downcase(s[i])
  {
    if s == [] then [] else [Downcase(s[0])] + DowncaseAll(s[1..])
  }

  /** `String#capitalize`: first character upper-cased, the rest lower-cased. */
  function Capitalize(w: string): (r: string)
    ensures |r| == |w|
    ensures w != [] ==> r[0] == Upcase(w[0]) && r[1..] == DowncaseAll(w[1..])
  {
    if w == [] then [] else [Upcase(w[0])] + DowncaseAll(w[1..])
  }

  /** `s.split('_')`, keeping every field (Ruby drops trailing empty fields; they
      capitalize to nothing, so the joined name is the same). */
  function Split(s: string): (ws: seq<string>)
    ensures |ws| >= 1
    ensures forall i, j :: 0 <= i < |ws| && 0 <= j < |ws[i]| ==> ws[i][j] != '_'
  {
    if s == [] then [[]]
    else
      var rest := Split(s[1..]);
      if s[0] == '_' then [[]] + rest
      else [[s[0]] + rest[0]] + rest[1..]
  }

  /** Fields joined with underscores: the inverse of Split. */
  function JoinFields(ws: seq<string>): string
    requires |ws| >= 1
    decreases |ws|
  {
    if |ws| == 1 then ws[0] else ws[0] + "_" + JoinFields(ws[1..])
  }

  /** Split loses nothing: joining its fields with underscores gives back the string. */
  lemma {:induction false} SplitJoinRoundTrip(s: string)
    ensures JoinFields(Split(s)) == s
    decreases |s|
  {
    if s != [] {
      var rest := Split(s[1..]);
      SplitJoinRoundTrip(s[1..]);
      if s[0] == '_' {
        assert Split(s) == [[]] + rest && |Split(s)| >= 2;
        assert Split(s)[1..] == rest;
        assert JoinFields(Split(s)) == [] + "_" + JoinFields(rest);
        assert s == [s[0]] + s[1..];
      } else if |rest| == 1 {
        assert Split(s) == [[s[0]] + rest[0]];
        assert s == [s[0]] + s[1..];
      } else {
        var ws := Split(s);
        assert ws == [[s[0]] + rest[0]] + rest[1..];
        assert ws[1..] == rest[1..];
        assert JoinFields(ws) == [s[0]] + (rest[0] + "_" + JoinFields(rest[1..]));
        assert s == [s[0]] + s[1..];
      }
    }
  }

  /** `words.map! { |w| w.capitalize }; words.join`. */
  function JoinCapitalized(ws: seq<string>): string {
    if ws == [] then [] else Capitalize(ws[0]) + JoinCapitalized(ws[1..])
  }

  /** The constant name an element spelled in snake case gets. */
  function CamelCase(s: string): string {
    JoinCapitalized(Split(s))
  }

  /** A character-by-character reference for CamelCase: underscores vanish, the first
      character of each word is upper-cased and every other character lower-cased. */
  function CamelReference(s: string, wordStart: bool): string {
    if s == [] then []
    else if s[0] == '_' then CamelReference(s[1..], true)
    else [if wordStart then Upcase(s[0]) else Downcase(s[0])] + CamelReference(s[1..], false)
  }

  /** Splitting, capitalising and joining is the character-level rule. */
  lemma {:induction false} CamelCaseMatchesReference(s: string)
    ensures CamelCase(s) == CamelReference(s, true)
    decreases |s|, 1
  {
    if s != [] {
      var rest := Split(s[1..]);
      if s[0] == '_' {
        assert Split(s)[1..] == rest;
        CamelCaseMatchesReference(s[1..]);
      } else {
        var w := [s[0]] + rest[0];
        assert Split(s) == [w] + rest[1..];
        assert Split(s)[1..] == rest[1..];
        assert Capitalize(w) == [Upcase(s[0])] + DowncaseAll(rest[0]) by {
          assert w[1..] == rest[0];
        }
        WordTailMatchesReference(s[1..]);
      }
    }
  }

  /** Inside a word: the rest of the first field lower-cased, then the remaining words. */
  lemma {:induction false} WordTailMatchesReference(s: string)
    ensures DowncaseAll(Split(s)[0]) + JoinCapitalized(Split(s)[1..]) == CamelReference(s, false)
    decreases |s|, 0
  {
    if s != [] {
      var rest := Split(s[1..]);
      if s[0] == '_' {
        assert Split(s)[1..] == rest;
        CamelCaseMatchesReference(s[1..]);
      } else {
        var w := [s[0]] + rest[0];
        assert Split(s) == [w] + rest[1..];
        assert Split(s)[1..] == rest[1..];
        assert DowncaseAll(w) == [Downcase(s[0])] + DowncaseAll(rest[0]);
        WordTailMatchesReference(s[1..]);
      }
    }
  }

  /** The reference drops exactly the underscores and nothing else. */
  lemma {:induction false} ReferenceDropsUnderscores(s: string, wordStart: bool)
    ensures |CamelReference(s, wordStart)| == |s| - Count(s, '_')
    ensures '_' !in CamelReference(s, wordStart)
  {
    if s != [] {
      ReferenceDropsUnderscores(s[1..], true);
      ReferenceDropsUnderscores(s[1..], false);
      if s[0] != '_' {
        var c := if wordStart then Upcase(s[0]) else Downcase(s[0]);
        assert c != '_';
      }
    }
  }

  /** A name `const_set` accepts: an upper-case letter, then letters, digits or underscores. */
  predicate ValidConstant(n: string) {
    && |n| > 0 && Upper(n[0])
    && forall i :: 0 <= i < |n| ==> Upper(n[i]) || Lower(n[i]) || Digit(n[i]) || n[i] == '_'
  }

  /** The constant `initialize` defines for one element: the element itself when its
      first character is upper case, else its CamelCase. An empty symbol has no first
      character (`nil.downcase` raises); an invalid name makes `const_set` raise. */
  function ConstName(e: Sym): (r: Result<string>)
    ensures |e| == 0 ==> r == Err(NoMethodError)
    ensures r.Ok? ==> ValidConstant(r.value)
    ensures |e| > 0 && Upper(e[0]) ==> (r.Ok? <==> ValidConstant(e)) && (r.Ok? ==> r.value == e)
    ensures |e| > 0 && !Upper(e[0]) ==> (r.Ok? <==> ValidConstant(CamelReference(e, true)))
    ensures |e| > 0 && !Upper(e[0]) && r.Ok? ==> r.value == CamelReference(e, true)
    ensures r.Err? && |e| > 0 ==> r.error == NameError
  {
    if |e| == 0 then Err(NoMethodError)
    else
      var name := if Upper(e[0]) then e else CamelCase(e);
      CamelCaseMatchesReference(e);
      if ValidConstant(name) then Ok(name) else Err(NameError)
  }

  /** Over a run of lower-case letters the reference copies the letters unchanged. */
  lemma {:induction false} ReferenceKeepsLowerRun(w: string, t: string)
    requires forall i :: 0 <= i < |w| ==> Lower(w[i])
    ensures CamelReference(w + t, false) == w + CamelReference(t, false)
  {
    if w != [] {
      var u := w + t;
      assert u != [] && u[0] == w[0] && u[1..] == w[1..] + t;
      assert u[0] != '_' && Downcase(w[0]) == w[0];
      assert CamelReference(u, false) == [w[0]] + CamelReference(w[1..] + t, false);
      ReferenceKeepsLowerRun(w[1..], t);
      assert w == [w[0]] + w[1..];
    } else {
      assert w + t == t;
    }
  }

  /** A snake-case element of two lower-case words (`:mouse_up`) gets the constant made
      of the two words with their first letters upper-cased (`MouseUp`). */
  lemma SnakeCaseJoinsWords(a: string, b: string)
    requires |a| > 0 && |b| > 0
    requires forall i :: 0 <= i < |a| ==> Lower(a[i])
    requires forall i :: 0 <= i < |b| ==> Lower(b[i])
    ensures ConstName(a + "_" + b) == Ok([Upcase(a[0])] + a[1..] + [Upcase(b[0])] + b[1..])
  {
    var e := a + "_" + b;
    var n := [Upcase(a[0])] + a[1..] + [Upcase(b[0])] + b[1..];
    assert e[0] == a[0] && e[1..] == a[1..] + ("_" + b);
    ReferenceKeepsLowerRun(a[1..], "_" + b);
    assert CamelReference("_" + b, false) == CamelReference(b, true) by {
      assert ("_" + b)[1..] == b;
    }
    ReferenceKeepsLowerRun(b[1..], []);
    assert CamelReference(b, true) == [Upcase(b[0])] + b[1..] by {
      assert b[1..] + [] == b[1..];
    }
    assert CamelReference(e, true) == [Upcase(a[0])] + (a[1..] + ([Upcase(b[0])] + b[1..]));
    assert CamelReference(e, true) == n;
    UpcasedWordsAreValid(a, b);
  }

  /** The joined words form a name `const_set` accepts. */
  lemma UpcasedWordsAreValid(a: string, b: string)
    requires |a| > 0 && |b| > 0
    requires forall i :: 0 <= i < |a| ==> Lower(a[i])
    requires forall i :: 0 <= i < |b| ==> Lower(b[i])
    ensures ValidConstant([Upcase(a[0])] + a[1..] + [Upcase(b[0])] + b[1..])
  {
    var n := [Upcase(a[0])] + a[1..] + [Upcase(b[0])] + b[1..];
    assert Upper(Upcase(a[0])) && Upper(Upcase(b[0]));
    forall i | 0 <= i < |n| ensures Upper(n[i]) || Lower(n[i]) {
      if 1 <= i < |a| {
        assert n[i] == a[i];
      } else if |a| + 1 <= i {
        assert n[i] == b[i - |a|];
      }
    }
  }

  /** An element starting with a digit gives a constant name starting with that digit,
      which `const_set` refuses. */
  lemma LeadingDigitIsRefused(e: Sym)
    requires |e| > 0 && Digit(e[0])
    ensures ConstName(e) == Err(NameError)
  {
    assert CamelReference(e, true)[0] == e[0];
  }

  /** An argument of `Enumeration.new`. */
  datatype EnumArg = SymArg(name: Sym) | ListArg(items: seq<Sym>)

  datatype Enumeration = Enumeration(elements: seq<Sym>, syn: map<Sym, Sym>, constants: map<string, Sym>)

  /** Defines the constants for the elements in order; a later element with the same
      constant name overwrites the earlier one. An array among several arguments has no
      valid constant name (its first element being nil when it is empty). */
  function DefineConstants(es: seq<EnumArg>, consts: map<string, Sym>): (r: Result<map<string, Sym>>)
    ensures r.Ok? ==> forall i :: 0 <= i < |es| ==> es[i].SymArg? && ConstName(es[i].name).Ok?
    ensures r.Ok? ==> forall i :: 0 <= i < |es| ==> ConstName(es[i].name).value in r.value
    ensures r.Ok? ==> forall k :: k in consts ==> k in r.value
    ensures (forall i :: 0 <= i < |es| ==> es[i].SymArg? && ConstName(es[i].name).Ok?) ==> r.Ok?
    ensures r.Ok? ==> forall k :: k in r.value ==> k in consts || exists i :: 0 <= i < |es| && ConstName(es[i].name) == Ok(k)
  {
    if es == [] then Ok(consts)
    else
      var named: Result<string> :=
        match es[0]
        case SymArg(n) => ConstName(n)
        case ListArg(items) => if items == [] then Err(NoMethodError) else Err(NameError);
      if named.Err? then Err(named.error)
      else
        var r := DefineConstants(es[1..], consts[named.value := es[0].name]);
        assert forall i :: 1 <= i < |es| ==> es[i] == es[1..][i - 1];
        r
  }

  function Symbols(names: seq<Sym>): (es: seq<EnumArg>)
    ensures |es| == |names| && forall i :: 0 <= i < |es| ==> es[i] == SymArg(names[i])
  {
    if names == [] then [] else [SymArg(names[0])] + Symbols(names[1..])
  }

  function Names(es: seq<EnumArg>): (names: seq<Sym>)
    requires forall i :: 0 <= i < |es| ==> es[i].SymArg?
    ensures |names| == |es| && forall i :: 0 <= i < |es| ==> names[i] == es[i].name
  {
    if es == [] then [] else [es[0].name] + Names(es[1..])
  }

  /** `Enumeration.new(*elements)`: a single argument is taken as the element list
      (a lone symbol has no `each` and raises); otherwise the arguments are the elements. */
  function NewEnumeration(args: seq<EnumArg>): (r: Result<Enumeration>)
    ensures |args| == 1 && args[0].SymArg? ==> r == Err(NoMethodError)
    ensures r.Ok? ==> r.value.syn == map[]
    ensures r.Ok? ==> |args| == 1 ==> r.value.elements == args[0].items
    ensures r.Ok? ==> |args| != 1 ==> Symbols(r.value.elements) == args
    ensures r.Ok? ==> forall e :: e in r.value.elements ==>
      ConstName(e).Ok? && ConstName(e).value in r.value.constants
  {
    if |args| == 1 then
      match args[0]
      case SymArg(_) => Err(NoMethodError)
      case ListArg(items) =>
        var es := Symbols(items);
        match DefineConstants(es, map[])
        case Err(e) => Err(e)
        case Ok(consts) => Ok(Enumeration(items, map[], consts))
    else
      match DefineConstants(args, map[])
      case Err(e) => Err(e)
      case Ok(consts) =>
        var names := Names(args);
        assert Symbols(names) == args;
        Ok(Enumeration(names, map[], consts))
  }

  /** Every element named validly is enough for the enumeration to be built. */
  lemma NewSucceedsOnValidNames(names: seq<Sym>)
    requires |names| != 1
    requires forall i :: 0 <= i < |names| ==> ConstName(names[i]).Ok?
    ensures NewEnumeration(Symbols(names)).Ok?
    ensures NewEnumeration(Symbols(names)).value.elements == names
    ensures NewEnumeration([ListArg(names)]).Ok?
    ensures NewEnumeration([ListArg(names)]).value.elements == names
  {
    var r := NewEnumeration(Symbols(names));
    assert r.value.elements == names by {
      var es := r.value.elements;
      assert Symbols(es) == Symbols(names);
      assert |es| == |names|;
      forall i | 0 <= i < |es| ensures es[i] == names[i] {
        assert Symbols(es)[i] == SymArg(es[i]);
      }
    }
  }

  datatype Aliased = Aliased(en: Enumeration, ret: Option<Sym>)

  /** `alias(element_alias, element)`: only an element can be aliased (else false is
      returned, here None); the alias is returned. */
  function Alias(en: Enumeration, a: Sym, e: Sym): (r: Aliased)
    ensures e !in en.elements ==> r == Aliased(en, None)
    ensures e in en.elements ==> r.ret == Some(a) && r.en == en.(syn := en.syn[a := e])
  {
    if e !in en.elements then Aliased(en, None) else Aliased(en.(syn := en.syn[a := e]), Some(a))
  }

  /** `include?(item)`: a synonym or an element. */
  function Includes(en: Enumeration, item: Sym): (r: bool)
    ensures r <==> item in en.syn || ValueOf(en, item) == None
    ensures !r ==> ValueOf(en, item) == Some(item)
  {
    item in en.syn || item in en.elements
  }

  /** `value_of(item)`: a synonym's element; an item that is not an element comes back
      unchanged; an element gives nil. */
  function ValueOf(en: Enumeration, item: Sym): (r: Option<Sym>)
    ensures item in en.syn ==> r == Some(en.syn[item])
    ensures item !in en.syn && item !in en.elements ==> r == Some(item)
    ensures r == None <==> item !in en.syn && item in en.elements
  {
    if item in en.syn then Some(en.syn[item])
    else if item !in en.elements then Some(item)
    else None
  }

  /** `each`: the elements in their original order (synonyms are not yielded). */
  function Each(en: Enumeration): (r: seq<Sym>)
    ensures forall x :: x in r <==> x in en.elements
    ensures |r| == |en.elements|
  {
    en.elements
  }

  /** After `alias(a, e)` of an element, `a` is included and looks up to `e`; other
      items answer as before, and iteration is unchanged. */
  lemma AliasThenLookup(en: Enumeration, a: Sym, e: Sym, other: Sym)
    requires e in en.elements && other != a
    ensures var en' := Alias(en, a, e).en;
            && Includes(en', a) && ValueOf(en', a) == Some(e)
            && Includes(en', other) == Includes(en, other)
            && ValueOf(en', other) == ValueOf(en, other)
            && Each(en') == Each(en)
  {
  }

  /** Membership and lookup agree: an included item that is not a synonym is an element,
      which looks up to nil; an item that is not included looks up to itself. */
  lemma IncludesAndValueOf(en: Enumeration, item: Sym)
    ensures !Includes(en, item) ==> ValueOf(en, item) == Some(item)
    ensures Includes(en, item) && item !in en.syn ==> ValueOf(en, item) == None
    ensures ValueOf(en, item) == None ==> Includes(en, item)
  {
  }

  /** The `Events` enumeration's synonym: `:click` stands for `:mouse_up`. */
  lemma ClickIsMouseUp(en: Enumeration)
    requires en.syn == map[] && "mouse_up" in en.elements && "click" !in en.elements
    ensures var en' := Alias(en, "click", "mouse_up").en;
            Includes(en', "click") && ValueOf(en', "click") == Some("mouse_up")
            && ValueOf(en', "mouse_up") == None
  {
  }
}
