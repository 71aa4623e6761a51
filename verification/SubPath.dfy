/** Substitution of claim and volume names into a directory pattern (interpolateRootDirectoryName in controller.go). */
module SubPath {
  import opened Strings

  datatype Component = PvcName | PvcNamespace | PvName

  /** The template key of a component, "${" and "}" included. */
  function Key(c: Component): (key: string) {
    match c
    case PvcName => "${.PVC.name}"
    case PvcNamespace => "${.PVC.namespace}"
    case PvName => "${.PV.name}"
  }

  /** The volume parameters the components stand for; a missing parameter is the empty text. */
  datatype Params = Params(pvcName: string, pvcNamespace: string, pvName: string)

  function Value(p: Params, c: Component): (v: string) {
    match c
    case PvcName => p.pvcName
    case PvcNamespace => p.pvcNamespace
    case PvName => p.pvName
  }

  /** The first key of the list that the text starts with. */
  function Match(s: string, order: seq<Component>): (r: Option<Component>)
    ensures r.Some? ==> r.value in order && Key(r.value) <= s
    ensures r.None? ==> forall c :: c in order ==> !(Key(c) <= s)
  {
    if order == [] then None
    else if Key(order[0]) <= s then Some(order[0])
    else Match(s, order[1..])
  }

  lemma KeysNonEmpty(c: Component)
    ensures |Key(c)| >= 3 && Key(c)[0] == '$' && Key(c)[1] == '{'
  {
  }

  /**
   * strings.Replacer: from left to right, the first key that fits is replaced, and what replaced it is not looked at
   * again.
   */
  function Replace(s: string, order: seq<Component>, p: Params): (r: string)
    decreases |s|
  {
    if s == "" then ""
    else
      var m := Match(s, order);
      if m.Some? then
        KeysNonEmpty(m.value);
        Value(p, m.value) + Replace(s[|Key(m.value)|..], order, p)
      else [s[0]] + Replace(s[1..], order, p)
  }

  /** No key is a prefix of another. */
  lemma KeysPrefixFree(a: Component, b: Component)
    ensures Key(a) <= Key(b) ==> a == b
  {
    assert Key(PvcName)[10] == 'e' && Key(PvcNamespace)[10] == 'e';
    assert Key(PvcName)[11] == '}' && Key(PvcNamespace)[11] == 's';
    assert Key(PvcName)[4] == 'V' && Key(PvcNamespace)[4] == 'V';
    assert Key(PvName)[5] == '.' && Key(PvcName)[5] == 'C' && Key(PvcNamespace)[5] == 'C';
  }

  /** So at most one key fits at any place. */
  lemma OneKeyFits(s: string, a: Component, b: Component)
    requires Key(a) <= s && Key(b) <= s
    ensures a == b
  {
    KeysPrefixFree(a, b);
    KeysPrefixFree(b, a);
    assert |Key(a)| <= |Key(b)| ==> Key(a) <= Key(b);
    assert |Key(b)| <= |Key(a)| ==> Key(b) <= Key(a);
  }

  ghost predicate AllComponents(order: seq<Component>) {
    forall c :: c in order
  }

  /** The iteration order of the component map does not show in the result. */
  lemma {:induction false} OrderIrrelevant(s: string, order: seq<Component>, other: seq<Component>, p: Params)
    requires AllComponents(order) && AllComponents(other)
    ensures Replace(s, order, p) == Replace(s, other, p)
    decreases |s|
  {
    if s != "" {
      var m, n := Match(s, order), Match(s, other);
      if m.Some? && n.Some? { OneKeyFits(s, m.value, n.value); }
      assert m == n;
      if m.Some? {
        KeysNonEmpty(m.value);
        OrderIrrelevant(s[|Key(m.value)|..], order, other, p);
      } else {
        OrderIrrelevant(s[1..], order, other, p);
      }
    }
  }

  const COMPONENTS: seq<Component> := [PvcName, PvcNamespace, PvName]

  lemma ComponentsAll()
    ensures AllComponents(COMPONENTS)
  {
    assert COMPONENTS[0] == PvcName && COMPONENTS[1] == PvcNamespace && COMPONENTS[2] == PvName;
    forall c: Component ensures c in COMPONENTS {
      match c { case PvcName => case PvcNamespace => case PvName => }
    }
  }

  /** The result is refused while a template character is left in it. */
  ghost predicate Marked(s: string) {
    Contains(s, "${") || Contains(s, "}")
  }

  ghost function Interpolated(path: string, p: Params): (r: Option<string>) {
    var s := Replace(path, COMPONENTS, p);
    if Marked(s) then None else Some(s)
  }

  method ContainsText(s: string, sub: string) returns (found: bool)
    ensures found <==> Contains(s, sub)
  {
    var i := IndexFrom(s, sub, 0);
    return i <= |s|;
  }

  /** createListOfVariableSubstitutions: the components in whatever order the map yields them. */
  method ListComponents() returns (order: seq<Component>)
    ensures AllComponents(order)
  {
    ComponentsAll();
    var todo := {PvcName, PvcNamespace, PvName};
    order := [];
    forall c: Component ensures c in todo { match c { case PvcName => case PvcNamespace => case PvName => } }
    while todo != {}
      invariant forall c :: c in todo || c in order
    {
      var c :| c in todo;
      order := order + [c];
      todo := todo - {c};
    }
  }

  /** interpolateRootDirectoryName */
  method InterpolateRootDirectoryName(path: string, p: Params) returns (r: Option<string>)
    ensures r == Interpolated(path, p)
    ensures r.Some? ==> !Contains(r.value, "${") && !Contains(r.value, "}")
  {
    var order := ListComponents();
    ComponentsAll();
    OrderIrrelevant(path, order, COMPONENTS, p);
    var result := Replace(path, order, p);
    var opening := ContainsText(result, "${");
    var closing := ContainsText(result, "}");
    if opening || closing { return None; }
    return Some(result);
  }

  // ---------------------------------------------------------------------------------------------------------
  // Patterns as templates

  datatype Piece = Text(text: string) | Variable(component: Component)

  /** How a template is written, and what it stands for. */
  function Written(t: seq<Piece>): (s: string) {
    if t == [] then ""
    else (match t[0] case Text(text) => text case Variable(c) => Key(c)) + Written(t[1..])
  }

  function Meaning(t: seq<Piece>, p: Params): (s: string) {
    if t == [] then ""
    else (match t[0] case Text(text) => text case Variable(c) => Value(p, c)) + Meaning(t[1..], p)
  }

  /** No key begins inside `text` when `rest` follows it. */
  ghost predicate NoKeyIn(text: string, rest: string) {
    forall i, c :: 0 <= i < |text| ==> !(Key(c) <= text[i..] + rest)
  }

  /** The texts of a template, as it is written, spell no key. */
  ghost predicate Plain(t: seq<Piece>) {
    t == [] || ((t[0].Text? ==> NoKeyIn(t[0].text, Written(t[1..]))) && Plain(t[1..]))
  }

  /** Text without a dollar sign never spells one. */
  lemma DollarFree(text: string, rest: string)
    requires '$' !in text
    ensures NoKeyIn(text, rest)
  {
    forall i, c: Component | 0 <= i < |text| ensures !(Key(c) <= text[i..] + rest) {
      KeysNonEmpty(c);
      assert (text[i..] + rest)[0] == text[i];
    }
  }

  lemma CopiesChar(x: char, rest: string, order: seq<Component>, p: Params)
    requires forall c :: !(Key(c) <= [x] + rest)
    ensures Replace([x] + rest, order, p) == [x] + Replace(rest, order, p)
  {
    var s := [x] + rest;
    assert Match(s, order).None?;
    assert s[1..] == rest;
  }

  lemma NoKeyInTail(text: string, rest: string)
    requires text != "" && NoKeyIn(text, rest)
    ensures NoKeyIn(text[1..], rest)
    ensures text + rest == [text[0]] + (text[1..] + rest)
    ensures forall c :: !(Key(c) <= [text[0]] + (text[1..] + rest))
  {
    assert text + rest == [text[0]] + (text[1..] + rest) && text[0..] == text;
    forall i, c: Component | 0 <= i < |text[1..]| ensures !(Key(c) <= text[1..][i..] + rest) {
      assert text[i + 1..] == text[1..][i..];
    }
  }

  lemma {:induction false} CopiesText(text: string, rest: string, order: seq<Component>, p: Params)
    requires NoKeyIn(text, rest)
    ensures Replace(text + rest, order, p) == text + Replace(rest, order, p)
  {
    if text == "" {
      assert text + rest == rest;
    } else {
      var tail := text[1..];
      NoKeyInTail(text, rest);
      CopiesText(tail, rest, order, p);
      CopiesChar(text[0], tail + rest, order, p);
      FirstOf(text, Replace(rest, order, p));
    }
  }

  lemma FirstOf(text: string, rest: string)
    requires text != ""
    ensures [text[0]] + (text[1..] + rest) == text + rest
  {
  }

  lemma ReplacesKey(c: Component, rest: string, p: Params)
    ensures Replace(Key(c) + rest, COMPONENTS, p) == Value(p, c) + Replace(rest, COMPONENTS, p)
  {
    var s := Key(c) + rest;
    KeysNonEmpty(c);
    ComponentsAll();
    var m := Match(s, COMPONENTS);
    assert Key(c) <= s;
    OneKeyFits(s, m.value, c);
    assert s[|Key(c)|..] == rest;
  }

  /** Substitution gives a template its meaning, whatever the names contain. */
  lemma {:induction false} ReplaceIsMeaning(t: seq<Piece>, p: Params)
    requires Plain(t)
    ensures Replace(Written(t), COMPONENTS, p) == Meaning(t, p)
  {
    if t != [] {
      ReplaceIsMeaning(t[1..], p);
      match t[0]
      case Text(text) => CopiesText(text, Written(t[1..]), COMPONENTS, p);
      case Variable(c) => ReplacesKey(c, Written(t[1..]), p);
    }
  }

  /** A template is accepted exactly when nothing in its meaning looks like a template, and then with its meaning. */
  lemma AcceptedIsMeaning(t: seq<Piece>, p: Params)
    requires Plain(t)
    ensures Interpolated(Written(t), p)
            == if Contains(Meaning(t, p), "${") || Contains(Meaning(t, p), "}") then None else Some(Meaning(t, p))
  {
    ReplaceIsMeaning(t, p);
  }

  /** What the three variables are written like, and stand for. */
  lemma VariablesMean(p: Params)
    ensures Replace("${.PVC.name}", COMPONENTS, p) == p.pvcName
    ensures Replace("${.PVC.namespace}", COMPONENTS, p) == p.pvcNamespace
    ensures Replace("${.PV.name}", COMPONENTS, p) == p.pvName
  {
    VariableMeans(PvcName, p);
    VariableMeans(PvcNamespace, p);
    VariableMeans(PvName, p);
  }

  lemma VariableMeans(c: Component, p: Params)
    ensures Replace(Key(c), COMPONENTS, p) == Value(p, c)
  {
    var t := [Variable(c)];
    assert t[1..] == [] && Written(t) == Key(c) + "" == Key(c) && Meaning(t, p) == Value(p, c) + "" == Value(p, c);
    ReplaceIsMeaning(t, p);
  }
}
