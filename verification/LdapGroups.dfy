/**
  bootstrap/components/dex-secret-ldap/entrypoint.py, get_group_search_configured: building an LDAP
  group filter from a list of groups kept in a secret.
 */
module LdapGroups {
  import opened Wrappers

  const SEPARATOR := "::::"

  function PutBefore(c: char, pieces: seq<string>): (r: seq<string>)
    requires pieces != []
    ensures r != []
  {
    [[c] + pieces[0]] + pieces[1..]
  }

  /** str.split("::::"): from the left, without overlaps. */
  function Groups(s: string): (r: seq<string>)
    ensures r != []
  {
    if s == "" then [""]
    else if SEPARATOR <= s then [""] + Groups(s[4..])
    else PutBefore(s[0], Groups(s[1..]))
  }

  /** str.split for a separator of one character. */
  function Split(s: string, c: char): (r: seq<string>)
    ensures r != []
    ensures |r| > 1 <==> c in s
  {
    if s == "" then [""]
    else if s[0] == c then [""] + Split(s[1..], c)
    else PutBefore(s[0], Split(s[1..], c))
  }

  function Cn(group: string): string {
    Split(group, ',')[0]
  }

  /** The second component; None for the IndexError of an entry without a comma. */
  function BaseOf(group: string): Option<string> {
    if |Split(group, ',')| > 1 then Some(Split(group, ',')[1]) else None
  }

  const NONE := "none"

  /** The first base DN that is not `none`. */
  function ChooseBase(groups: seq<string>): Option<string> {
    if groups == [] then Some(NONE)
    else if BaseOf(groups[0]) == Some(NONE) then ChooseBase(groups[1..])
    else BaseOf(groups[0])
  }

  function Items(groups: seq<string>): string {
    if groups == [] then "" else Items(groups[..|groups| - 1]) + "(" + Cn(groups[|groups| - 1]) + ")"
  }

  function OrFilter(groups: seq<string>): string {
    "(|" + Items(groups) + ")"
  }

  predicate HasSeparator(s: string) {
    exists i :: 0 <= i < |s| && SEPARATOR <= s[i..]
  }

  datatype GroupSearch = Empty | Search(baseDN: string, filter: string, nameAttr: string)

  /** The settings for a decoded group list; None for an IndexError. */
  function Configured(group: string): Option<GroupSearch> {
    if HasSeparator(group) then
      match ChooseBase(Groups(group))
      case None => None
      case Some(base) => Some(Search(base, "\"" + OrFilter(Groups(group)) + "\"", ""))
    else
      match BaseOf(group)
      case None => None
      case Some(base) => Some(Search(base, "\"(" + Cn(group) + ")\"", ""))
  }

  // ---------------------------------------------------------------- splitting what was joined

  function JoinGroups(groups: seq<string>): string {
    if groups == [] then "" else if |groups| == 1 then groups[0] else groups[0] + SEPARATOR + JoinGroups(groups[1..])
  }

  predicate EndsWithColon(s: string) {
    s != "" && s[|s| - 1] == ':'
  }

  /** No entry contains the separator, and none before the last ends in a colon. */
  predicate Joinable(groups: seq<string>) {
    && (forall i :: 0 <= i < |groups| ==> !HasSeparator(groups[i]))
    && (forall i :: 0 <= i < |groups| - 1 ==> !EndsWithColon(groups[i]))
  }

  lemma {:induction false} NoSeparatorNoSplit(g: string)
    requires !HasSeparator(g)
    ensures Groups(g) == [g]
  {
    if g != "" {
      assert g[0..] == g;
      assert forall i :: 0 <= i < |g[1..]| ==> g[1..][i..] == g[i + 1..];
      NoSeparatorNoSplit(g[1..]);
      assert g == [g[0]] + g[1..];
    }
  }

  lemma {:induction false} SplitAtSeparator(g: string, rest: string)
    requires !HasSeparator(g) && !EndsWithColon(g)
    ensures Groups(g + SEPARATOR + rest) == [g] + Groups(rest)
  {
    var s := g + SEPARATOR + rest;
    if g == "" {
      assert s[4..] == rest;
    } else {
      assert g[0..] == g;
      assert forall i :: 0 <= i < |g[1..]| ==> g[1..][i..] == g[i + 1..];
      assert s[|g| - 1] == g[|g| - 1] && (|g| >= 4 ==> s[..4] == g[..4]);
      assert s[1..] == g[1..] + SEPARATOR + rest;
      SplitAtSeparator(g[1..], rest);
      assert g == [g[0]] + g[1..];
      assert ([g[1..]] + Groups(rest))[1..] == Groups(rest);
    }
  }

  lemma {:induction false} FirstPiece(s: string)
    ensures Groups(s)[0] <= s
    ensures Groups(s)[0] == "" && |Groups(s)| > 1 ==> SEPARATOR <= s
  {
    if s != "" && !(SEPARATOR <= s) {
      FirstPiece(s[1..]);
    }
  }

  /** What splitting returns is always joinable. */
  lemma {:induction false} PiecesAreJoinable(s: string)
    ensures Joinable(Groups(s))
    decreases |s|
  {
    if s == "" {
    } else if SEPARATOR <= s {
      PiecesAreJoinable(s[4..]);
      assert forall i :: 0 < i < |Groups(s)| ==> Groups(s)[i] == Groups(s[4..])[i - 1];
    } else {
      var pieces := Groups(s[1..]);
      PiecesAreJoinable(s[1..]);
      FirstPiece(s[1..]);
      LongerPiece(s, pieces[0]);
      assert s == [s[0]] + s[1..];
      assert EndsWithColon([s[0]] + pieces[0]) ==> EndsWithColon(pieces[0]) || (pieces[0] == "" && s[0] == ':');
    }
  }

  lemma LongerPiece(s: string, piece: string)
    requires s != "" && !(SEPARATOR <= s) && piece <= s[1..] && !HasSeparator(piece)
    ensures !HasSeparator([s[0]] + piece)
  {
    var longer := [s[0]] + piece;
    forall i | 0 <= i < |longer|
      ensures !(SEPARATOR <= longer[i..])
    {
      if i == 0 {
        assert longer <= s;
      } else {
        assert longer[i..] == piece[i - 1..];
      }
    }
  }

  /** The groups come back from the joined text exactly when they are joinable. */
  lemma {:induction false} SplitInvertsJoin(groups: seq<string>)
    requires groups != []
    ensures Groups(JoinGroups(groups)) == groups <==> Joinable(groups)
    ensures |groups| > 1 ==> HasSeparator(JoinGroups(groups))
    decreases |groups|
  {
    PiecesAreJoinable(JoinGroups(groups));
    if |groups| > 1 {
      JoinHasSeparator(groups[0], JoinGroups(groups[1..]));
    }
    if Joinable(groups) {
      if |groups| == 1 {
        NoSeparatorNoSplit(groups[0]);
      } else {
        assert Joinable(groups[1..]);
        SplitInvertsJoin(groups[1..]);
        SplitAtSeparator(groups[0], JoinGroups(groups[1..]));
        assert groups == [groups[0]] + groups[1..];
      }
    }
  }

  lemma JoinHasSeparator(a: string, b: string)
    ensures HasSeparator(a + SEPARATOR + b)
  {
    assert (a + SEPARATOR + b)[|a|..] == SEPARATOR + b;
  }

  // ---------------------------------------------------------------- filters, section 3 of RFC 4515

  datatype Filter =
    | And(filters: seq<Filter>)
    | Or(filters: seq<Filter>)
    | Not(filter: Filter)
    | Item(text: string)

  /** The items in parentheses, one after the other. */
  function Print(items: seq<string>): string {
    if items == [] then "" else "(" + items[0] + ")" + Print(items[1..])
  }

  /** The text of a filter without its own parentheses: the rule `filtercomp`. */
  function Comp(f: Filter): string {
    match f
    case And(fs) => "&" + Print(seq(|fs|, i requires 0 <= i < |fs| => Comp(fs[i])))
    case Or(fs) => "|" + Print(seq(|fs|, i requires 0 <= i < |fs| => Comp(fs[i])))
    case Not(g) => "!(" + Comp(g) + ")"
    case Item(x) => x
  }

  function Comps(fs: seq<Filter>): (r: seq<string>)
    ensures |r| == |fs| && forall i :: 0 <= i < |fs| ==> r[i] == Comp(fs[i])
  {
    seq(|fs|, i requires 0 <= i < |fs| => Comp(fs[i]))
  }

  predicate Proper(f: Filter) {
    match f
    case And(fs) => fs != [] && forall g :: g in fs ==> Proper(g)
    case Or(fs) => fs != [] && forall g :: g in fs ==> Proper(g)
    case Not(g) => Proper(g)
    case Item(x) => IsItem(x)
  }

  predicate IsParen(c: char) {
    c == '(' || c == ')'
  }

  predicate ParenFree(s: string) {
    forall i :: 0 <= i < |s| ==> !IsParen(s[i])
  }

  function IndexOf(s: string, c: char): (n: nat)
    ensures n <= |s| && (n < |s| ==> s[n] == c) && c !in s[..n]
  {
    if s == "" || s[0] == c then 0
    else
      var n := IndexOf(s[1..], c);
      assert s[..n + 1] == [s[0]] + s[1..][..n];
      n + 1
  }

  /**
    The rule `item`: an attribute, a filter type and a value; a value with asterisks, the rules
    `present` and `substring`, only after `=`.
   */
  predicate IsItem(x: string) {
    var n := IndexOf(x, '=');
    && ParenFree(x)
    && 0 < n < |x|
    && IsValue(x[n + 1..])
    && (if x[n - 1] == '~' || x[n - 1] == '>' || x[n - 1] == '<' then IsAttribute(x[..n - 1]) && '*' !in x[n + 1..]
        else if x[n - 1] == ':' then IsExtensible(x[..n - 1]) && '*' !in x[n + 1..]
        else IsAttribute(x[..n]))
  }

  /** An encoded value: no NUL, and a backslash only before two hexadecimal digits. */
  predicate IsValue(s: string) {
    && '\0' !in s
    && forall i :: 0 <= i < |s| && s[i] == '\\' ==> i + 2 < |s| && IsHex(s[i + 1]) && IsHex(s[i + 2])
  }

  /** The left side of `:=`: an attribute, a `dn` flag and a matching rule, of which the first or the last is there. */
  predicate IsExtensible(s: string) {
    var parts := Split(s, ':');
    || (|parts| == 1 && IsAttribute(parts[0]))
    || (|parts| == 2 && IsAttribute(parts[0]) && (IsDn(parts[1]) || IsOid(parts[1])))
    || (|parts| == 2 && parts[0] == "" && IsOid(parts[1]))
    || (|parts| == 3 && (parts[0] == "" || IsAttribute(parts[0])) && IsDn(parts[1]) && IsOid(parts[2]))
  }

  predicate IsDn(s: string) {
    |s| == 2 && s[0] in {'d', 'D'} && s[1] in {'n', 'N'}
  }

  /** The attribute descriptions of section 2.5 of RFC 4512: a type and its options. */
  predicate IsAttribute(s: string) {
    var parts := Split(s, ';');
    IsOid(parts[0]) && forall i :: 1 <= i < |parts| ==> parts[i] != "" && IsKey(parts[i])
  }

  predicate IsOid(s: string) {
    || (s != "" && IsLetter(s[0]) && IsKey(s))
    || (|Split(s, '.')| > 1 && forall i :: 0 <= i < |Split(s, '.')| ==> IsNumber(Split(s, '.')[i]))
  }

  predicate IsKey(s: string) {
    forall i :: 0 <= i < |s| ==> IsLetter(s[i]) || IsDigit(s[i]) || s[i] == '-'
  }

  predicate IsNumber(s: string) {
    s != "" && (forall i :: 0 <= i < |s| ==> IsDigit(s[i])) && (|s| > 1 ==> s[0] != '0')
  }

  predicate IsLetter(c: char) {
    'a' <= c <= 'z' || 'A' <= c <= 'Z'
  }

  predicate IsDigit(c: char) {
    '0' <= c <= '9'
  }

  predicate IsHex(c: char) {
    IsDigit(c) || 'a' <= c <= 'f' || 'A' <= c <= 'F'
  }

  // ---------------------------------------------------------------- a filter text has one reading

  /** The text closes every parenthesis it opens, and `depth` more. */
  predicate Balanced(s: string, depth: nat) {
    if s == "" then depth == 0
    else if s[0] == '(' then Balanced(s[1..], depth + 1)
    else if s[0] == ')' then depth > 0 && Balanced(s[1..], depth - 1)
    else Balanced(s[1..], depth)
  }

  /** The length of the text before the parenthesis that closes one more than `depth`. */
  function Close(s: string, depth: nat): nat {
    if s == "" then 0
    else if s[0] == '(' then 1 + Close(s[1..], depth + 1)
    else if s[0] == ')' && depth == 0 then 0
    else if s[0] == ')' then 1 + Close(s[1..], depth - 1)
    else 1 + Close(s[1..], depth)
  }

  lemma {:induction false} CloseEnds(x: string, rest: string, depth: nat)
    requires Balanced(x, depth)
    ensures Close(x + ")" + rest, depth) == |x|
    decreases |x|
  {
    var s := x + ")" + rest;
    if x != "" {
      assert s[0] == x[0] && s[1..] == x[1..] + ")" + rest;
      CloseEnds(x[1..], rest, if x[0] == '(' then depth + 1 else if x[0] == ')' then depth - 1 else depth);
    }
  }

  lemma {:induction false} BalancedAppend(x: string, d: nat, y: string, e: nat)
    requires Balanced(x, d) && Balanced(y, e)
    ensures Balanced(x + y, d + e)
    decreases |x|
  {
    if x == "" {
      assert x + y == y;
    } else {
      assert (x + y)[0] == x[0] && (x + y)[1..] == x[1..] + y;
      BalancedAppend(x[1..], if x[0] == '(' then d + 1 else if x[0] == ')' then d - 1 else d, y, e);
    }
  }

  lemma {:induction false} EnclosedBalanced(x: string, rest: string)
    requires Balanced(x, 0) && Balanced(rest, 0)
    ensures Balanced("(" + x + ")" + rest, 0)
  {
    var s := "(" + x + ")" + rest;
    assert (")" + rest)[1..] == rest;
    BalancedAppend(x, 0, ")" + rest, 1);
    assert s[1..] == x + (")" + rest);
  }

  lemma {:induction false} PrintBalanced(items: seq<string>)
    requires forall i :: 0 <= i < |items| ==> Balanced(items[i], 0)
    ensures Balanced(Print(items), 0)
    decreases |items|
  {
    if items != [] {
      PrintBalanced(items[1..]);
      EnclosedBalanced(items[0], Print(items[1..]));
    }
  }

  lemma {:induction false} ParenFreeBalanced(s: string)
    requires ParenFree(s)
    ensures Balanced(s, 0)
  {
    if s != "" {
      assert !IsParen(s[0]);
      assert forall i :: 0 <= i < |s[1..]| ==> s[1..][i] == s[i + 1];
      ParenFreeBalanced(s[1..]);
    }
  }

  lemma {:induction false} CompBalanced(f: Filter)
    requires Proper(f)
    ensures Balanced(Comp(f), 0)
  {
    match f
    case Item(x) => ParenFreeBalanced(x);
    case Not(g) =>
      CompBalanced(g);
      EnclosedBalanced(Comp(g), "");
      assert Comp(f)[1..] == "(" + Comp(g) + ")" + "";
    case And(_) => ListBalanced(f);
    case Or(_) => ListBalanced(f);
  }

  lemma {:induction false} ListBalanced(f: Filter)
    requires Proper(f) && (f.And? || f.Or?)
    ensures Balanced(Comp(f), 0) && Balanced(Print(Comps(f.filters)), 0)
    decreases f, 0
  {
    forall i | 0 <= i < |f.filters|
      ensures Balanced(Comps(f.filters)[i], 0)
    {
      CompBalanced(f.filters[i]);
    }
    PrintBalanced(Comps(f.filters));
    assert Comp(f)[1..] == Print(Comps(f.filters));
  }

  lemma EnclosedIsUnique(x: string, rest: string, y: string, more: string)
    requires Balanced(x, 0) && Balanced(y, 0) && "(" + x + ")" + rest == "(" + y + ")" + more
    ensures x == y && rest == more
  {
    var s := "(" + x + ")" + rest;
    assert s[1..] == x + ")" + rest && s[1..] == y + ")" + more;
    CloseEnds(x, rest, 0);
    CloseEnds(y, more, 0);
    assert x == s[1..][..|x|] && y == s[1..][..|y|];
    assert rest == s[1..][|x| + 1..] && more == s[1..][|y| + 1..];
  }

  lemma {:induction false} PrintIsInjective(a: seq<string>, b: seq<string>)
    requires forall i :: 0 <= i < |a| ==> Balanced(a[i], 0)
    requires forall i :: 0 <= i < |b| ==> Balanced(b[i], 0)
    requires Print(a) == Print(b)
    ensures a == b
    decreases |a|
  {
    if a != [] && b != [] {
      EnclosedIsUnique(a[0], Print(a[1..]), b[0], Print(b[1..]));
      PrintIsInjective(a[1..], b[1..]);
      assert a == [a[0]] + a[1..] && b == [b[0]] + b[1..];
    }
  }

  lemma SplitStarts(s: string, c: char)
    ensures Split(s, c)[0] != "" ==> s != "" && Split(s, c)[0][0] == s[0]
    ensures Split(s, c)[0] == "" && |Split(s, c)| > 1 ==> s != "" && s[0] == c
    ensures Split(s, c) == [""] ==> s == ""
  {
  }

  lemma AttributeStarts(s: string)
    requires IsAttribute(s)
    ensures s != "" && (IsLetter(s[0]) || IsDigit(s[0]))
  {
    var oid := Split(s, ';')[0];
    SplitStarts(s, ';');
    SplitStarts(oid, '.');
    if !(oid != "" && IsLetter(oid[0])) {
      assert IsNumber(Split(oid, '.')[0]);
    }
  }

  /** No item starts like one of the three compound forms. */
  lemma ItemStarts(x: string)
    requires IsItem(x)
    ensures x != "" && (IsLetter(x[0]) || IsDigit(x[0]) || x[0] == ':')
  {
    var n := IndexOf(x, '=');
    if x[n - 1] == '~' || x[n - 1] == '>' || x[n - 1] == '<' {
      AttributeStarts(x[..n - 1]);
    } else if x[n - 1] == ':' {
      var parts := Split(x[..n - 1], ':');
      SplitStarts(x[..n - 1], ':');
      if IsAttribute(parts[0]) {
        AttributeStarts(parts[0]);
      }
    } else {
      AttributeStarts(x[..n]);
    }
  }

  /** Two proper filters with the same text are the same filter. */
  lemma {:induction false} FiltersAreUnambiguous(f: Filter, g: Filter)
    requires Proper(f) && Proper(g) && Comp(f) == Comp(g)
    ensures f == g
    decreases f
  {
    SameKind(f, g);
    match f
    case Item(_) =>
    case Not(h) =>
      SameInner(f, g);
      FiltersAreUnambiguous(h, g.filter);
    case _ =>
      SameComps(f, g);
      forall i | 0 <= i < |f.filters|
        ensures f.filters[i] == g.filters[i]
      {
        assert Comps(f.filters)[i] == Comps(g.filters)[i];
        FiltersAreUnambiguous(f.filters[i], g.filters[i]);
      }
  }

  lemma SameKind(f: Filter, g: Filter)
    requires Proper(f) && Proper(g) && Comp(f) == Comp(g)
    ensures (f.And? <==> g.And?) && (f.Or? <==> g.Or?) && (f.Not? <==> g.Not?)
  {
    if f.Item? {
      ItemStarts(f.text);
    }
    if g.Item? {
      ItemStarts(g.text);
    }
    assert Comp(f) != "" && Comp(g) != "" && Comp(f)[0] == Comp(g)[0];
  }

  lemma SameInner(f: Filter, g: Filter)
    requires Proper(f) && Proper(g) && Comp(f) == Comp(g) && f.Not? && g.Not?
    ensures Comp(f.filter) == Comp(g.filter)
  {
    CompBalanced(f.filter);
    CompBalanced(g.filter);
    SameNegated(Comp(f.filter), Comp(g.filter));
  }

  lemma SameNegated(x: string, y: string)
    requires Balanced(x, 0) && Balanced(y, 0) && "!(" + x + ")" == "!(" + y + ")"
    ensures x == y
  {
    assert ("!(" + x + ")")[1..] == "(" + x + ")" + "";
    assert ("!(" + y + ")")[1..] == "(" + y + ")" + "";
    EnclosedIsUnique(x, "", y, "");
  }

  lemma SameComps(f: Filter, g: Filter)
    requires Proper(f) && Proper(g) && Comp(f) == Comp(g) && ((f.And? && g.And?) || (f.Or? && g.Or?))
    ensures |f.filters| == |g.filters| && Comps(f.filters) == Comps(g.filters)
  {
    forall h | h in f.filters + g.filters
      ensures Balanced(Comp(h), 0)
    {
      CompBalanced(h);
    }
    assert forall i :: 0 <= i < |f.filters| ==> f.filters[i] in f.filters + g.filters;
    assert forall i :: 0 <= i < |g.filters| ==> g.filters[i] in f.filters + g.filters;
    assert Comp(f)[1..] == Print(Comps(f.filters)) && Comp(g)[1..] == Print(Comps(g.filters));
    PrintIsInjective(Comps(f.filters), Comps(g.filters));
  }

  // ---------------------------------------------------------------- reading the filter back

  /** The text is a filter component of section 3 of RFC 4515. */
  ghost predicate IsComponent(x: string) {
    exists f :: Proper(f) && Comp(f) == x
  }

  /** The text is an OR filter, and these are its parts. */
  ghost predicate ReadsAsOr(text: string, parts: seq<string>) {
    exists fs: seq<Filter> :: IsReading(fs, text, parts)
  }

  predicate IsReading(fs: seq<Filter>, text: string, parts: seq<string>) {
    Proper(Or(fs)) && text == "(" + Comp(Or(fs)) + ")" && parts == Comps(fs)
  }

  function Cns(groups: seq<string>): seq<string> {
    seq(|groups|, i requires 0 <= i < |groups| => Cn(groups[i]))
  }

  lemma {:induction false} PrintAppend(a: seq<string>, item: string)
    ensures Print(a + [item]) == Print(a) + "(" + item + ")"
    decreases |a|
  {
    if a == [] {
      assert a + [item] == [item] && [item][1..] == [];
    } else {
      assert (a + [item])[1..] == a[1..] + [item];
      PrintAppend(a[1..], item);
    }
  }

  lemma {:induction false} ItemsArePrinted(groups: seq<string>)
    ensures Items(groups) == Print(Cns(groups))
    decreases |groups|
  {
    if groups != [] {
      var n := |groups| - 1;
      ItemsArePrinted(groups[..n]);
      assert Cns(groups) == Cns(groups[..n]) + [Cn(groups[n])];
      PrintAppend(Cns(groups[..n]), Cn(groups[n]));
    }
  }

  /** A text is an OR filter of one list of parts only. */
  lemma ReadingIsUnique(text: string, a: seq<string>, b: seq<string>)
    requires ReadsAsOr(text, a) && ReadsAsOr(text, b)
    ensures a == b
  {
    var fs :| IsReading(fs, text, a);
    var gs :| IsReading(gs, text, b);
    assert Comp(Or(fs)) == text[1..|text| - 1] == Comp(Or(gs));
    FiltersAreUnambiguous(Or(fs), Or(gs));
  }

  /** Without parentheses, a component is an item. */
  lemma PlainComponents(x: string)
    requires ParenFree(x)
    ensures IsComponent(x) <==> IsItem(x)
  {
    if IsItem(x) {
      assert Proper(Item(x)) && Comp(Item(x)) == x;
    }
    if IsComponent(x) {
      var f :| Proper(f) && Comp(f) == x;
      assert !f.Item? ==> IsParen(Comp(f)[1]);
    }
  }

  /** An attribute name and a plain value around an equals sign are an item. */
  lemma PlainItems(key: string, value: string)
    requires key != "" && IsLetter(key[0]) && IsKey(key)
    requires ParenFree(value) && '\0' !in value && '\\' !in value
    ensures IsItem(key + "=" + value)
  {
    var x := key + "=" + value;
    assert forall i :: 0 <= i < |key| ==> key[i] != '=' && key[i] != ';' && !IsParen(key[i]) && key[i] !in {'~', '>', '<', ':'};
    IndexIs(key, '=', value);
    NoSeparatorNoPieces(key, ';');
    assert x[..|key|] == key && x[|key| + 1..] == value;
    assert forall i :: 0 <= i < |x| ==> x[i] == if i < |key| then key[i] else if i == |key| then '=' else value[i - |key| - 1];
  }

  lemma IndexIs(a: string, c: char, b: string)
    requires c !in a
    ensures IndexOf(a + [c] + b, c) == |a|
  {
    var s := a + [c] + b;
    assert s[|a|] == c;
    assert forall i :: 0 <= i < |a| ==> s[i] == a[i] && a[i] in a;
    assert forall n {:trigger s[..n]} :: |a| < n <= |s| ==> s[..n][|a|] == c;
  }

  lemma {:induction false} NoSeparatorNoPieces(s: string, c: char)
    requires c !in s
    ensures Split(s, c) == [s]
  {
    if s != "" {
      assert s[0] in s && forall i :: 0 <= i < |s[1..]| ==> s[1..][i] in s;
      NoSeparatorNoPieces(s[1..], c);
      assert s == [s[0]] + s[1..];
    }
  }

  lemma {:induction false} FiltersOf(parts: seq<string>) returns (fs: seq<Filter>)
    requires forall i :: 0 <= i < |parts| ==> IsComponent(parts[i])
    ensures Comps(fs) == parts && forall f :: f in fs ==> Proper(f)
  {
    fs := [];
    for i := 0 to |parts|
      invariant Comps(fs) == parts[..i] && forall f :: f in fs ==> Proper(f)
    {
      assert IsComponent(parts[i]);
      var f :| Proper(f) && Comp(f) == parts[i];
      assert Comps(fs + [f]) == Comps(fs) + [Comp(f)];
      fs := fs + [f];
    }
  }

  /**
    The filter is an OR filter of exactly the groups' first components if and only if each of them
    is a filter component.
   */
  lemma FilterReadsBack(groups: seq<string>)
    requires groups != []
    ensures ReadsAsOr(OrFilter(groups), Cns(groups)) <==> forall g :: g in groups ==> IsComponent(Cn(g))
  {
    ItemsArePrinted(groups);
    if forall g :: g in groups ==> IsComponent(Cn(g)) {
      var fs := FiltersOf(Cns(groups));
      assert Comp(Or(fs)) == "|" + Print(Comps(fs));
      assert IsReading(fs, OrFilter(groups), Cns(groups));
    }
    if ReadsAsOr(OrFilter(groups), Cns(groups)) {
      var fs :| IsReading(fs, OrFilter(groups), Cns(groups));
      PartsAreComponents(fs, groups);
    }
  }

  lemma PartsAreComponents(fs: seq<Filter>, groups: seq<string>)
    requires Proper(Or(fs)) && Cns(groups) == Comps(fs)
    ensures forall g :: g in groups ==> IsComponent(Cn(g))
  {
    forall g | g in groups
      ensures IsComponent(Cn(g))
    {
      var i :| 0 <= i < |groups| && groups[i] == g;
      assert Cns(groups)[i] == Comp(fs[i]) && Proper(fs[i]);
    }
  }

  lemma NonemptyComp(f: Filter)
    requires Proper(f)
    ensures Comp(f) != ""
  {
    if f.Item? {
      ItemStarts(f.text);
    }
  }

  lemma ReadingStarts(fs: seq<Filter>, text: string, parts: seq<string>)
    requires IsReading(fs, text, parts)
    ensures parts != [] && parts[0] != "" && Balanced(parts[0], 0)
    ensures |text| >= 2 && text[2..] == "(" + parts[0] + ")" + (Print(parts[1..]) + ")")
  {
    CompBalanced(fs[0]);
    NonemptyComp(fs[0]);
    assert Comp(Or(fs)) == "|" + Print(Comps(fs));
  }

  /** A text whose first part is empty is no OR filter. */
  lemma EmptyFirstPart(text: string, parts: seq<string>)
    requires "(|()" <= text
    ensures !ReadsAsOr(text, parts)
  {
    if ReadsAsOr(text, parts) {
      var fs :| IsReading(fs, text, parts);
      ReadingStarts(fs, text, parts);
      assert text[2..] == "(" + "" + ")" + text[4..];
      EnclosedIsUnique(parts[0], Print(parts[1..]) + ")", "", text[4..]);
      assert false;
    }
  }

  /** Entries without a first component give a text that is no OR filter at all. */
  lemma EmptyPartsAreNoFilter(parts: seq<string>)
    ensures !ReadsAsOr(OrFilter([",ou=a", ",ou=b"]), parts)
  {
    var groups := [",ou=a", ",ou=b"];
    ItemsArePrinted(groups);
    assert Cn(groups[0]) == "";
    var others := Cns(groups)[1..];
    assert Print(Cns(groups)) == "()" + Print(others);
    EmptyFirstPart(OrFilter(groups), parts);
  }

  // ---------------------------------------------------------------- the components of an entry

  lemma {:induction false} SplitAtComma(a: string, rest: string)
    requires ',' !in a
    ensures Split(a + "," + rest, ',') == [a] + Split(rest, ',')
  {
    var s := a + "," + rest;
    if a == "" {
      assert s[1..] == rest;
    } else {
      assert s[0] == a[0] && s[1..] == a[1..] + "," + rest;
      SplitAtComma(a[1..], rest);
      assert a == [a[0]] + a[1..];
    }
  }

  /** The filter item is the text before the first comma, the base DN the text between the first two. */
  lemma EntryParts(cn: string, base: string, more: string)
    requires ',' !in cn && ',' !in base
    ensures Cn(cn + "," + base) == cn && BaseOf(cn + "," + base) == Some(base)
    ensures Cn(cn + "," + (base + "," + more)) == cn && BaseOf(cn + "," + (base + "," + more)) == Some(base)
    ensures Cn(cn) == cn && BaseOf(cn) == None
  {
    NoSeparatorNoPieces(cn, ',');
    NoSeparatorNoPieces(base, ',');
    SplitAtComma(cn, base);
    SplitAtComma(base, more);
    SplitAtComma(cn, base + "," + more);
  }

  /** A single group: what stands before the first comma, and what between the first two or after the only one. */
  ghost predicate IsGroup(text: string, cn: string, base: string) {
    && !HasSeparator(text) && ',' !in cn && ',' !in base
    && (text == cn + "," + base || exists more: string :: text == cn + "," + (base + "," + more))
  }

  /** A text without the separator is one group: it fails exactly without a comma. */
  lemma SingleGroupConfigures(text: string)
    requires !HasSeparator(text)
    ensures Configured(text).None? <==> ',' !in text
    ensures forall cn: string, base: string :: IsGroup(text, cn, base) ==>
              Configured(text) == Some(Search(base, "\"(" + cn + ")\"", ""))
  {
    forall cn: string, base: string | IsGroup(text, cn, base)
      ensures Configured(text) == Some(Search(base, "\"(" + cn + ")\"", ""))
    {
      if text == cn + "," + base {
        EntryParts(cn, base, "");
      } else {
        var more: string :| text == cn + "," + (base + "," + more);
        EntryParts(cn, base, more);
      }
    }
  }

  // ---------------------------------------------------------------- the base DN

  /** An entry that ends the search for a base DN: another base, or no comma at all. */
  predicate Decides(group: string) {
    BaseOf(group) != Some("none")
  }

  /** The base DN is that of the first deciding entry, and `none` when there is none. */
  lemma {:induction false} BaseIsFirst(groups: seq<string>)
    ensures ChooseBase(groups) == Some("none") || exists i :: 0 <= i < |groups| && Decides(groups[i])
    ensures forall i :: 0 <= i < |groups| && Decides(groups[i]) && (forall j :: 0 <= j < i ==> !Decides(groups[j])) ==>
              ChooseBase(groups) == BaseOf(groups[i])
    decreases |groups|
  {
    if groups != [] {
      var rest := groups[1..];
      assert forall i :: 0 < i < |groups| ==> groups[i] == rest[i - 1];
      assert Decides(groups[0]) || !Decides(groups[0]);
      BaseIsFirst(rest);
      if ChooseBase(rest) != Some(NONE) {
        var i :| 0 <= i < |rest| && Decides(rest[i]);
        assert Decides(groups[i + 1]);
      }
      forall i | 0 < i < |groups| && Decides(groups[i]) && (forall j :: 0 <= j < i ==> !Decides(groups[j]))
        ensures ChooseBase(groups) == BaseOf(groups[i])
      {
        assert forall j :: 0 <= j < i - 1 ==> rest[j] == groups[j + 1];
        assert Decides(rest[i - 1]);
      }
    }
  }

  /**
    For every list of two or more groups that comes back from the joined text: it gives an OR
    filter between literal quotes that reads back as the list of first components exactly when
    these are filter components, and the base DN chosen as above; it fails exactly when the
    first deciding entry has no comma.
   */
  lemma JoinedGroupsConfigure(groups: seq<string>)
    requires |groups| >= 2 && Joinable(groups)
    ensures var c := Configured(JoinGroups(groups));
            && (c.None? <==> LacksComma(groups))
            && (c.Some? ==>
                  && Some(c.value.baseDN) == ChooseBase(groups)
                  && c.value.Search?
                  && c.value.filter == "\"" + OrFilter(groups) + "\""
                  && c.value.nameAttr == ""
                  && (ReadsAsOr(OrFilter(groups), Cns(groups)) <==> forall g :: g in groups ==> IsComponent(Cn(g))))
  {
    SplitInvertsJoin(groups);
    FilterReadsBack(groups);
    FailsWhere(groups);
  }

  lemma {:induction false} FailsWhere(groups: seq<string>)
    ensures ChooseBase(groups).None? <==> LacksComma(groups)
    decreases |groups|
  {
    BaseIsFirst(groups);
    if ChooseBase(groups).None? {
      var m := FirstDecider(groups);
      assert ',' !in groups[m];
    }
    if i :| 0 <= i < |groups| && ',' !in groups[i] && forall j :: 0 <= j < i ==> !Decides(groups[j]) {
      assert Decides(groups[i]);
    }
  }

  lemma {:induction false} FirstDecider(groups: seq<string>) returns (m: nat)
    requires exists i :: 0 <= i < |groups| && Decides(groups[i])
    ensures m < |groups| && Decides(groups[m]) && forall j :: 0 <= j < m ==> !Decides(groups[j])
  {
    m := 0;
    while !Decides(groups[m])
      invariant m < |groups| && forall j :: 0 <= j < m ==> !Decides(groups[j])
      decreases |groups| - m
    {
      m := m + 1;
    }
  }

  /** The first entry that ends the search has no comma. */
  ghost predicate LacksComma(groups: seq<string>) {
    exists i :: 0 <= i < |groups| && ',' !in groups[i] && forall j :: 0 <= j < i ==> !Decides(groups[j])
  }

  /** The base DN of the first entry that has another one than `none`, or `none`. */
  ghost predicate IsBase(groups: seq<string>, base: string) {
    || (base == "none" && forall i :: 0 <= i < |groups| ==> !Decides(groups[i]))
    || (exists i :: 0 <= i < |groups| && Decides(groups[i]) && BaseOf(groups[i]) == Some(base)
                    && forall j :: 0 <= j < i ==> !Decides(groups[j]))
  }

  /** The settings for a text, told from the groups it was made of. */
  ghost predicate IsConfigured(text: string, r: Option<GroupSearch>) {
    && (!HasSeparator(text) && ',' !in text ==> r.None?)
    && (forall cn: string, base: string :: IsGroup(text, cn, base) ==> r == Some(Search(base, "\"(" + cn + ")\"", "")))
    && (forall groups: seq<string> :: |groups| >= 2 && Joinable(groups) && text == JoinGroups(groups) ==> IsJoined(groups, r))
  }

  ghost predicate IsJoined(groups: seq<string>, r: Option<GroupSearch>) {
    if LacksComma(groups) then r.None?
    else r.Some? && r.value.Search? && r.value.filter == "\"(|" + Print(Cns(groups)) + ")\"" && r.value.nameAttr == ""
         && IsBase(groups, r.value.baseDN)
  }

  lemma {:induction false} NoneDecides(groups: seq<string>)
    requires forall i :: 0 <= i < |groups| ==> !Decides(groups[i])
    ensures ChooseBase(groups) == Some("none")
    decreases |groups|
  {
    if groups != [] {
      assert !Decides(groups[0]);
      assert forall i :: 0 <= i < |groups[1..]| ==> groups[1..][i] == groups[i + 1];
      NoneDecides(groups[1..]);
    }
  }

  lemma ChosenIsBase(groups: seq<string>)
    requires ChooseBase(groups).Some?
    ensures IsBase(groups, ChooseBase(groups).value)
  {
    BaseIsFirst(groups);
    if forall i :: 0 <= i < |groups| ==> !Decides(groups[i]) {
      NoneDecides(groups);
    } else {
      var m := FirstDecider(groups);
      assert ChooseBase(groups) == BaseOf(groups[m]);
    }
  }

  lemma QuotedFilter(groups: seq<string>)
    ensures "\"" + OrFilter(groups) + "\"" == "\"(|" + Print(Cns(groups)) + ")\""
  {
    ItemsArePrinted(groups);
    var items := Print(Cns(groups));
    assert "\"" + ("(|" + items + ")") + "\"" == "\"(|" + items + ")\"";
  }

  lemma JoinedIs(groups: seq<string>)
    requires |groups| >= 2 && Joinable(groups)
    ensures IsJoined(groups, Configured(JoinGroups(groups)))
  {
    JoinedGroupsConfigure(groups);
    QuotedFilter(groups);
    if Configured(JoinGroups(groups)).Some? {
      ChosenIsBase(groups);
    }
  }

  /** All texts that are one group or joined groups are configured as these say. */
  lemma ConfiguredIs(text: string)
    ensures IsConfigured(text, Configured(text))
  {
    if !HasSeparator(text) {
      SingleGroupConfigures(text);
    }
    forall groups: seq<string> | |groups| >= 2 && Joinable(groups) && text == JoinGroups(groups)
      ensures IsJoined(groups, Configured(text))
    {
      JoinedIs(groups);
    }
  }

  // ---------------------------------------------------------------- the setter as written

  class Connector {
    var groupSearch: Option<GroupSearch>

    constructor (groupSearch: Option<GroupSearch>)
      ensures this.groupSearch == groupSearch
    {
      this.groupSearch := groupSearch;
    }

    /**
      Takes the decoded group list of the secret, if it has one.  Returns false for an IndexError,
      which leaves the settings empty.
     */
    method GetGroupSearchConfigured(group: Option<string>) returns (ok: bool)
      modifies this
      ensures group.None? ==> ok && groupSearch == old(groupSearch)
      ensures group.Some? ==> (ok <==> Configured(group.value).Some?)
      ensures group.Some? ==> groupSearch == if ok then Configured(group.value) else Some(Empty)
      ensures group.Some? ==> IsConfigured(group.value, if ok then groupSearch else None)
    {
      if group.Some? {
        ConfiguredIs(group.value);
      }
      if group.None? {
        return true;
      }
      groupSearch := Some(Empty);
      var groupFilter := "";
      var groupBaseDn := NONE;
      if HasSeparator(group.value) {
        var groups := Groups(group.value);
        var base := FindBase(groups);
        if base.None? {
          return false;
        }
        groupBaseDn := base.value;
        groupFilter := BuildFilter(groups);
      } else {
        groupFilter := "\"(" + Cn(group.value) + ")\"";
        var base := BaseOf(group.value);
        if base.None? {
          return false;
        }
        groupBaseDn := base.value;
      }
      groupSearch := Some(Search(groupBaseDn, groupFilter, ""));
      return true;
    }
  }

  /** The loop over the groups that stops at the first base DN other than `none`. */
  method FindBase(groups: seq<string>) returns (base: Option<string>)
    ensures base == ChooseBase(groups)
  {
    for i := 0 to |groups|
      invariant ChooseBase(groups) == ChooseBase(groups[i..])
    {
      var groupRootDn := BaseOf(groups[i]);
      assert groups[i..][0] == groups[i] && groups[i..][1..] == groups[i + 1..];
      if groupRootDn != Some(NONE) {
        return groupRootDn;
      }
    }
    return Some(NONE);
  }

  /** The loop that appends one item per group. */
  method BuildFilter(groups: seq<string>) returns (groupFilter: string)
    ensures groupFilter == "\"" + OrFilter(groups) + "\""
  {
    groupFilter := "\"(|";
    for k := 0 to |groups|
      invariant groupFilter == "\"(|" + Items(groups[..k])
    {
      assert groups[..k + 1][..k] == groups[..k];
      groupFilter := groupFilter + "(" + Cn(groups[k]) + ")";
    }
    assert groups[..|groups|] == groups;
    groupFilter := groupFilter + ")\"";
  }
}
