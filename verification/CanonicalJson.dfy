// The canonical JSON text of an audit event's `details` (src/services/audit_integrity.rs).
//
// A string here is the sequence of bytes of its UTF-8 encoding: both the order of keys and
// the escaping of the original work byte by byte.
module CanonicalJson {
  import opened Text
  import opened Lex

  // An object keeps its members in the order it was built or read back in.
  datatype Json =
    | Null
    | Bool(b: bool)
    | Num(n: int)
    | Str(s: string)
    | Arr(items: seq<Json>)
    | Obj(members: seq<Member>)

  datatype Member = Member(key: string, value: Json)

  // serde_json's object type is a map: no key occurs twice in it.
  predicate WellFormed(v: Json) {
    match v
    case Arr(items) => forall i | 0 <= i < |items| :: WellFormed(items[i])
    case Obj(members) =>
      DistinctKeys(members) && forall i | 0 <= i < |members| :: WellFormed(members[i].value)
    case _ => true
  }

  predicate DistinctKeys(ms: seq<Member>) {
    forall i, j | 0 <= i < j < |ms| :: ms[i].key != ms[j].key
  }

  // ---------------------------------------------------------------------------
  // What a value means: objects are maps without null members.

  datatype Meaning =
    | NullM
    | BoolM(b: bool)
    | NumM(n: int)
    | StrM(s: string)
    | ArrM(items: seq<Meaning>)
    | ObjM(members: map<string, Meaning>)

  function MeaningOf(v: Json): (r: Meaning)
    decreases v, 1
  {
    match v
    case Null => NullM
    case Bool(b) => BoolM(b)
    case Num(n) => NumM(n)
    case Str(s) => StrM(s)
    case Arr(items) => ArrM(ItemMeanings(items))
    case Obj(members) => ObjM(MemberMeanings(members))
  }

  function ItemMeanings(vs: seq<Json>): (r: seq<Meaning>)
    ensures |r| == |vs|
    decreases vs, 0
  {
    if vs == [] then [] else [MeaningOf(vs[0])] + ItemMeanings(vs[1..])
  }

  function MemberMeanings(ms: seq<Member>): (r: map<string, Meaning>)
    decreases ms, 0
  {
    if ms == [] then map[]
    else if ms[0].value.Null? then MemberMeanings(ms[1..])
    else MemberMeanings(ms[1..])[ms[0].key := MeaningOf(ms[0].value)]
  }

  // ---------------------------------------------------------------------------
  // The text: null members dropped, keys sorted, at every level.

  function Normal(v: Json): (r: Json)
    decreases v, 1
  {
    match v
    case Arr(items) => Arr(NormalItems(items))
    case Obj(members) => Obj(Sorted(NormalMembers(members)))
    case _ => v
  }

  function NormalItems(vs: seq<Json>): (r: seq<Json>)
    ensures |r| == |vs| && forall i | 0 <= i < |vs| :: r[i] == Normal(vs[i])
    decreases vs, 0
  {
    if vs == [] then [] else [Normal(vs[0])] + NormalItems(vs[1..])
  }

  function NormalMembers(ms: seq<Member>): (r: seq<Member>)
    decreases ms, 0
  {
    if ms == [] then []
    else if ms[0].value.Null? then NormalMembers(ms[1..])
    else [Member(ms[0].key, Normal(ms[0].value))] + NormalMembers(ms[1..])
  }

  function Sorted(ms: seq<Member>): (r: seq<Member>)
    ensures |r| == |ms|
  {
    if ms == [] then [] else InsertSorted(ms[0], Sorted(ms[1..]))
  }

  function InsertSorted(m: Member, ms: seq<Member>): (r: seq<Member>)
    ensures |r| == |ms| + 1
  {
    if ms == [] || !Less(ms[0].key, m.key) then [m] + ms
    else [ms[0]] + InsertSorted(m, ms[1..])
  }

  // `Print(v, rest)` is the text of v, members in the order they are stored, before `rest`.
  function Print(v: Json, rest: string): (r: string)
    decreases v, 1
  {
    match v
    case Null => "null" + rest
    case Bool(b) => (if b then "true" else "false") + rest
    case Num(n) => IntText(n) + rest
    case Str(s) => PrintString(s, rest)
    case Arr(items) => "[" + PrintItems(items, rest)
    case Obj(members) => "{" + PrintMembers(members, rest)
  }

  function PrintItems(vs: seq<Json>, rest: string): (r: string)
    decreases vs, 0
  {
    if vs == [] then "]" + rest
    else Print(vs[0], if |vs| == 1 then "]" + rest else "," + PrintItems(vs[1..], rest))
  }

  function PrintMembers(ms: seq<Member>, rest: string): (r: string)
    decreases ms, 0
  {
    if ms == [] then "}" + rest
    else PrintString(ms[0].key, ":" +
      Print(ms[0].value, if |ms| == 1 then "}" + rest else "," + PrintMembers(ms[1..], rest)))
  }

  function PrintString(s: string, rest: string): (r: string) {
    "\"" + Escaped(s, "\"" + rest)
  }

  function Escaped(s: string, rest: string): (r: string) {
    if s == "" then rest else EscapeChar(s[0]) + Escaped(s[1..], rest)
  }

  // serde_json's escape table.
  function EscapeChar(c: char): (r: string) {
    if c == '\"' then "\\\""
    else if c == '\\' then "\\\\"
    else if c == '\U{08}' then "\\b"
    else if c == '\U{0C}' then "\\f"
    else if c == '\n' then "\\n"
    else if c == '\r' then "\\r"
    else if c == '\t' then "\\t"
    else if c < ' ' then "\\u00" + [HexDigit(c as int / 16), HexDigit(c as int % 16)]
    else [c]
  }

  function Canonical(v: Json): (r: string) {
    Print(Normal(v), "")
  }

  // ---------------------------------------------------------------------------
  // Printing can be undone: the text of a value is read back from the front of any text
  // in which it is followed by the end, a comma or a closing bracket.

  predicate EndsValue(rest: string) {
    rest == "" || rest[0] == ',' || rest[0] == ']' || rest[0] == '}'
  }

  lemma EscapeCharReadsBack(c: char, d: char, x: string, y: string)
    requires EscapeChar(c) + x == EscapeChar(d) + y
    ensures c == d && x == y
  {
    var t := EscapeChar(c) + x;
    assert t[0] == EscapeChar(c)[0] && t[0] == EscapeChar(d)[0];
    if t[0] == '\\' {
      assert t[1] == EscapeChar(c)[1] && t[1] == EscapeChar(d)[1];
      if t[1] == 'u' {
        assert t[4] == EscapeChar(c)[4] && t[4] == EscapeChar(d)[4];
        assert t[5] == EscapeChar(c)[5] && t[5] == EscapeChar(d)[5];
      }
    }
    assert c == d;
    Cancel(EscapeChar(c), x, y);
  }

  lemma {:induction false} EscapedReadsBack(s: string, t: string, x: string, y: string)
    requires Escaped(s, "\"" + x) == Escaped(t, "\"" + y)
    ensures s == t && x == y
  {
    var text := Escaped(s, "\"" + x);
    if s == "" || t == "" {
      assert s == "" ==> text[0] == '\"';
      assert t == "" ==> text[0] == '\"';
      Cancel("\"", x, y);
    } else {
      EscapeCharReadsBack(s[0], t[0], Escaped(s[1..], "\"" + x), Escaped(t[1..], "\"" + y));
      EscapedReadsBack(s[1..], t[1..], x, y);
      assert s == [s[0]] + s[1..] && t == [t[0]] + t[1..];
    }
  }

  lemma StringReadsBack(s: string, t: string, x: string, y: string)
    requires PrintString(s, x) == PrintString(t, y)
    ensures s == t && x == y
  {
    Cancel("\"", Escaped(s, "\"" + x), Escaped(t, "\"" + y));
    EscapedReadsBack(s, t, x, y);
  }

  // The first character of a value's text.
  function Lead(v: Json): (r: char) {
    match v
    case Null => 'n'
    case Bool(b) => if b then 't' else 'f'
    case Num(n) => IntText(n)[0]
    case Str(_) => '\"'
    case Arr(_) => '['
    case Obj(_) => '{'
  }

  lemma PrintLead(v: Json, rest: string)
    ensures Print(v, rest) != "" && Print(v, rest)[0] == Lead(v)
    ensures v.Num? ==> Lead(v) == '-' || IsDigit(Lead(v))
  {
    if v.Num? {
      var digits := NatText(if v.n < 0 then -v.n else v.n);
      assert AllDigits(digits) && digits != "";
    }
  }

  lemma {:induction false} PrintReadsBack(v: Json, w: Json, x: string, y: string)
    requires EndsValue(x) && EndsValue(y)
    requires Print(v, x) == Print(w, y)
    ensures v == w && x == y
    decreases v, 1
  {
    PrintLead(v, x);
    PrintLead(w, y);
    match v
    case Null => Cancel("null", x, y);
    case Bool(b) => Cancel(if b then "true" else "false", x, y);
    case Num(n) => IntTextReadsBack(n, w.n, x, y);
    case Str(s) => StringReadsBack(s, w.s, x, y);
    case Arr(items) =>
      Cancel("[", PrintItems(items, x), PrintItems(w.items, y));
      ItemsReadBack(items, w.items, x, y);
    case Obj(members) =>
      Cancel("{", PrintMembers(members, x), PrintMembers(w.members, y));
      MembersReadBack(members, w.members, x, y);
  }

  // What follows the first item of an array.
  function ItemsEnd(vs: seq<Json>, rest: string): (r: string)
    requires vs != []
    ensures r != "" && EndsValue(r) && r[0] == if |vs| == 1 then ']' else ','
  {
    if |vs| == 1 then "]" + rest else "," + PrintItems(vs[1..], rest)
  }

  lemma ItemsBegin(vs: seq<Json>, rest: string)
    ensures if vs == [] then PrintItems(vs, rest) == "]" + rest && PrintItems(vs, rest)[0] == ']'
            else PrintItems(vs, rest) == Print(vs[0], ItemsEnd(vs, rest)) && PrintItems(vs, rest) != ""
                 && PrintItems(vs, rest)[0] == Lead(vs[0]) && Lead(vs[0]) != ']'
  {
    if vs != [] {
      PrintLead(vs[0], ItemsEnd(vs, rest));
    }
    hide Print;
  }

  lemma {:induction false} ItemsReadBack(vs: seq<Json>, ws: seq<Json>, x: string, y: string)
    requires PrintItems(vs, x) == PrintItems(ws, y)
    ensures vs == ws && x == y
    decreases vs, 0
  {
    hide PrintItems, Print, Lead, EndsValue;
    ItemsBegin(vs, x);
    ItemsBegin(ws, y);
    if vs == [] || ws == [] {
      Cancel("]", x, y);
    } else {
      PrintReadsBack(vs[0], ws[0], ItemsEnd(vs, x), ItemsEnd(ws, y));
      if |vs| == 1 {
        Cancel("]", x, y);
      } else {
        Cancel(",", PrintItems(vs[1..], x), PrintItems(ws[1..], y));
        ItemsReadBack(vs[1..], ws[1..], x, y);
      }
      assert vs == [vs[0]] + vs[1..] && ws == [ws[0]] + ws[1..];
    }
  }

  // What follows the first member of an object.
  function MembersEnd(ms: seq<Member>, rest: string): (r: string)
    requires ms != []
    ensures r != "" && EndsValue(r) && r[0] == if |ms| == 1 then '}' else ','
  {
    if |ms| == 1 then "}" + rest else "," + PrintMembers(ms[1..], rest)
  }

  lemma MembersBegin(ms: seq<Member>, rest: string)
    ensures if ms == [] then PrintMembers(ms, rest) == "}" + rest && PrintMembers(ms, rest)[0] == '}'
            else PrintMembers(ms, rest) == PrintString(ms[0].key, ":" + Print(ms[0].value, MembersEnd(ms, rest)))
                 && PrintMembers(ms, rest)[0] == '\"'
  {
    hide Print, Escaped;
  }

  lemma {:induction false} MembersReadBack(ms: seq<Member>, ns: seq<Member>, x: string, y: string)
    requires PrintMembers(ms, x) == PrintMembers(ns, y)
    ensures ms == ns && x == y
    decreases ms, 0
  {
    hide PrintMembers, PrintString, Print, EndsValue;
    MembersBegin(ms, x);
    MembersBegin(ns, y);
    if ms == [] || ns == [] {
      Cancel("}", x, y);
    } else {
      var a, b := MembersEnd(ms, x), MembersEnd(ns, y);
      StringReadsBack(ms[0].key, ns[0].key, ":" + Print(ms[0].value, a), ":" + Print(ns[0].value, b));
      Cancel(":", Print(ms[0].value, a), Print(ns[0].value, b));
      PrintReadsBack(ms[0].value, ns[0].value, a, b);
      if |ms| == 1 {
        Cancel("}", x, y);
      } else {
        Cancel(",", PrintMembers(ms[1..], x), PrintMembers(ns[1..], y));
        MembersReadBack(ms[1..], ns[1..], x, y);
      }
      assert ms == [ms[0]] + ms[1..] && ns == [ns[0]] + ns[1..];
    }
  }

  // ---------------------------------------------------------------------------
  // The normal form keeps the meaning, and a meaning has only one normal form.

  ghost function Keys(ms: seq<Member>): (r: set<string>) {
    set i | 0 <= i < |ms| :: ms[i].key
  }

  ghost predicate SortedKeys(ms: seq<Member>) {
    forall i, j | 0 <= i < j < |ms| :: Less(ms[i].key, ms[j].key)
  }

  ghost predicate IsNormal(v: Json) {
    match v
    case Arr(items) => forall i | 0 <= i < |items| :: IsNormal(items[i])
    case Obj(ms) => NormalObject(ms) && forall i | 0 <= i < |ms| :: IsNormal(ms[i].value)
    case _ => true
  }

  ghost predicate NormalObject(ms: seq<Member>) {
    SortedKeys(ms) && forall i | 0 <= i < |ms| :: !ms[i].value.Null?
  }

  lemma {:induction false} InsertKeepsMeaning(m: Member, ms: seq<Member>)
    requires m.key !in Keys(ms) && !m.value.Null?
    ensures MemberMeanings(InsertSorted(m, ms)) == MemberMeanings(ms)[m.key := MeaningOf(m.value)]
    ensures Keys(InsertSorted(m, ms)) == Keys(ms) + {m.key}
  {
    hide MeaningOf, Less;
    if ms == [] || !Less(ms[0].key, m.key) {
      assert ([m] + ms)[1..] == ms;
      assert forall i | 0 < i <= |ms| :: ([m] + ms)[i] == ms[i - 1];
      assert Keys([m] + ms) == Keys(ms) + {m.key} by {
        forall k | k in Keys(ms) ensures k in Keys([m] + ms) {
          var i :| 0 <= i < |ms| && ms[i].key == k;
          assert ([m] + ms)[i + 1].key == k;
        }
        assert ([m] + ms)[0].key == m.key;
      }
    } else {
      var tail := InsertSorted(m, ms[1..]);
      KeysOfCons(ms[0], ms[1..]);
      KeysOfCons(ms[0], tail);
      assert [ms[0]] + ms[1..] == ms;
      InsertKeepsMeaning(m, ms[1..]);
      assert ([ms[0]] + tail)[1..] == tail;
    }
  }

  lemma KeysOfCons(m: Member, ms: seq<Member>)
    ensures Keys([m] + ms) == Keys(ms) + {m.key}
  {
    var all := [m] + ms;
    assert all[0].key == m.key;
    forall k | k in Keys(ms) ensures k in Keys(all) {
      var i :| 0 <= i < |ms| && ms[i].key == k;
      assert all[i + 1].key == k;
    }
    forall k | k in Keys(all) ensures k in Keys(ms) + {m.key} {
      var i :| 0 <= i < |all| && all[i].key == k;
      assert i > 0 ==> all[i] == ms[i - 1];
    }
  }

  lemma {:induction false} InsertKeepsOrder(m: Member, ms: seq<Member>)
    requires m.key !in Keys(ms) && !m.value.Null? && NormalObject(ms)
    ensures NormalObject(InsertSorted(m, ms))
  {
    hide Less, MemberMeanings;
    if ms == [] {
    } else if !Less(ms[0].key, m.key) {
      LessIsTotal(ms[0].key, m.key);
      forall j | 0 < j < |ms| ensures Less(m.key, ms[j].key) {
        LessIsTransitive(m.key, ms[0].key, ms[j].key);
      }
    } else {
      KeysOfCons(ms[0], ms[1..]);
      assert [ms[0]] + ms[1..] == ms;
      InsertKeepsOrder(m, ms[1..]);
      InsertKeepsMeaning(m, ms[1..]);
      var tail := InsertSorted(m, ms[1..]);
      forall j | 0 <= j < |tail| ensures Less(ms[0].key, tail[j].key) {
        assert tail[j].key in Keys(tail);
      }
    }
  }

  lemma {:induction false} SortKeepsMeaning(ms: seq<Member>)
    requires DistinctKeys(ms) && forall i | 0 <= i < |ms| :: !ms[i].value.Null?
    ensures MemberMeanings(Sorted(ms)) == MemberMeanings(ms)
    ensures Keys(Sorted(ms)) == Keys(ms)
    ensures NormalObject(Sorted(ms))
  {
    hide MeaningOf, Less, InsertSorted;
    if ms != [] {
      SortKeepsMeaning(ms[1..]);
      assert [ms[0]] + ms[1..] == ms;
      KeysOfCons(ms[0], ms[1..]);
      InsertKeepsMeaning(ms[0], Sorted(ms[1..]));
      InsertKeepsOrder(ms[0], Sorted(ms[1..]));
    }
  }

  lemma {:induction false} InsertKeepsMembers(m: Member, ms: seq<Member>)
    ensures multiset(InsertSorted(m, ms)) == multiset(ms) + multiset{m}
  {
    if ms == [] || !Less(ms[0].key, m.key) {
    } else {
      InsertKeepsMembers(m, ms[1..]);
      assert [ms[0]] + ms[1..] == ms;
    }
  }

  lemma SplitOfFirst(ms: seq<Member>)
    requires ms != []
    ensures multiset(ms) == multiset(ms[1..]) + multiset{ms[0]}
    ensures Sorted(ms) == InsertSorted(ms[0], Sorted(ms[1..]))
  {
    hide InsertSorted;
    assert [ms[0]] + ms[1..] == ms;
  }

  lemma {:induction false} SortKeepsMembers(ms: seq<Member>)
    ensures multiset(Sorted(ms)) == multiset(ms)
  {
    if ms != [] {
      hide InsertSorted, Sorted;
      SortKeepsMembers(ms[1..]);
      InsertKeepsMembers(ms[0], Sorted(ms[1..]));
      SplitOfFirst(ms);
    }
  }

  lemma {:induction false} NormalIsNormal(v: Json)
    requires WellFormed(v)
    ensures IsNormal(Normal(v)) && MeaningOf(Normal(v)) == MeaningOf(v)
    ensures Normal(v).Null? == v.Null?
    decreases v, 1
  {
    match v
    case Arr(items) => NormalItemsAreNormal(items);
    case Obj(members) =>
      NormalMembersAreNormal(members);
      var ms := NormalMembers(members);
      SortKeepsMeaning(ms);
      SortKeepsMembers(ms);
      forall i | 0 <= i < |ms| ensures IsNormal(Sorted(ms)[i].value) {
        assert Sorted(ms)[i] in multiset(Sorted(ms));
        assert Sorted(ms)[i] in ms;
      }
    case _ =>
  }

  lemma {:induction false} NormalItemsAreNormal(vs: seq<Json>)
    requires forall i | 0 <= i < |vs| :: WellFormed(vs[i])
    ensures forall i | 0 <= i < |vs| :: IsNormal(NormalItems(vs)[i])
    ensures ItemMeanings(NormalItems(vs)) == ItemMeanings(vs)
    decreases vs, 0
  {
    if vs != [] {
      NormalIsNormal(vs[0]);
      NormalItemsAreNormal(vs[1..]);
    }
  }

  lemma DistinctCons(m: Member, ms: seq<Member>)
    ensures DistinctKeys([m] + ms) <==> DistinctKeys(ms) && m.key !in Keys(ms)
  {
    var all := [m] + ms;
    assert forall i | 0 <= i < |ms| :: all[i + 1] == ms[i];
    if DistinctKeys(ms) && m.key !in Keys(ms) {
      forall i | 0 <= i < |ms| ensures ms[i].key != m.key {
        assert ms[i].key in Keys(ms);
      }
    }
    if DistinctKeys(all) {
      forall i, j | 0 <= i < j < |ms| ensures ms[i].key != ms[j].key {
        assert all[i + 1].key != all[j + 1].key;
      }
      forall i | 0 <= i < |ms| ensures ms[i].key != m.key {
        assert all[0].key != all[i + 1].key;
      }
    }
  }

  lemma MeaningsOfCons(m: Member, ms: seq<Member>)
    ensures MemberMeanings([m] + ms)
      == if m.value.Null? then MemberMeanings(ms) else MemberMeanings(ms)[m.key := MeaningOf(m.value)]
  {
    hide MeaningOf;
    assert ([m] + ms)[1..] == ms;
  }

  // Every member is normal, and none is null.
  ghost predicate NormalValues(ms: seq<Member>) {
    forall i | 0 <= i < |ms| :: IsNormal(ms[i].value) && !ms[i].value.Null?
  }

  lemma NormalValuesCons(m: Member, ms: seq<Member>)
    requires NormalValues(ms) && IsNormal(m.value) && !m.value.Null?
    ensures NormalValues([m] + ms)
  {
    hide IsNormal;
  }

  lemma {:induction false} NormalMembersAreNormal(ms: seq<Member>)
    requires DistinctKeys(ms) && forall i | 0 <= i < |ms| :: WellFormed(ms[i].value)
    ensures var r := NormalMembers(ms);
      DistinctKeys(r) && Keys(r) <= Keys(ms) && NormalValues(r) && MemberMeanings(r) == MemberMeanings(ms)
    decreases ms, 0
  {
    if ms != [] {
      hide DistinctKeys, Keys, NormalValues, MemberMeanings, MeaningOf, IsNormal;
      var m, rest := ms[0], ms[1..];
      assert [m] + rest == ms;
      DistinctCons(m, rest);
      KeysOfCons(m, rest);
      MeaningsOfCons(m, rest);
      NormalIsNormal(m.value);
      NormalMembersAreNormal(rest);
      if !m.value.Null? {
        var first, tail := Member(m.key, Normal(m.value)), NormalMembers(rest);
        DistinctCons(first, tail);
        KeysOfCons(first, tail);
        MeaningsOfCons(first, tail);
        NormalValuesCons(first, tail);
      }
    }
  }

  lemma {:induction false} MeaningKeys(ms: seq<Member>)
    requires forall i | 0 <= i < |ms| :: !ms[i].value.Null?
    ensures MemberMeanings(ms).Keys == Keys(ms)
  {
    if ms != [] {
      MeaningKeys(ms[1..]);
      KeysOfCons(ms[0], ms[1..]);
      assert [ms[0]] + ms[1..] == ms;
    }
  }

  lemma EmptyKeys(ms: seq<Member>)
    ensures Keys(ms) == {} <==> ms == []
  {
    if ms != [] {
      assert ms[0].key in Keys(ms);
    }
  }

  lemma {:induction false} NormalFormIsUnique(v: Json, w: Json)
    requires IsNormal(v) && IsNormal(w) && MeaningOf(v) == MeaningOf(w)
    ensures v == w
    decreases v, 1
  {
    match v
    case Arr(items) => NormalItemsAreUnique(items, w.items);
    case Obj(members) => NormalMembersAreUnique(members, w.members);
    case _ =>
  }

  lemma {:induction false} NormalItemsAreUnique(vs: seq<Json>, ws: seq<Json>)
    requires forall i | 0 <= i < |vs| :: IsNormal(vs[i])
    requires forall i | 0 <= i < |ws| :: IsNormal(ws[i])
    requires ItemMeanings(vs) == ItemMeanings(ws)
    ensures vs == ws
    decreases vs, 0
  {
    if vs != [] {
      assert ItemMeanings(vs)[0] == ItemMeanings(ws)[0];
      assert ItemMeanings(vs)[1..] == ItemMeanings(ws)[1..];
      NormalFormIsUnique(vs[0], ws[0]);
      NormalItemsAreUnique(vs[1..], ws[1..]);
      assert vs == [vs[0]] + vs[1..] && ws == [ws[0]] + ws[1..];
    }
  }

  // The first key of a sorted object is below every other key.
  lemma LeastKey(ms: seq<Member>, k: string)
    requires ms != [] && SortedKeys(ms) && k in Keys(ms)
    ensures AtMost(ms[0].key, k)
  {
  }

  lemma SameFirstKey(ms: seq<Member>, ns: seq<Member>)
    requires ms != [] && ns != [] && SortedKeys(ms) && SortedKeys(ns) && Keys(ms) == Keys(ns)
    ensures ms[0].key == ns[0].key
  {
    hide Less;
    assert ms[0].key in Keys(ms) && ns[0].key in Keys(ns);
    hide SortedKeys, Keys;
    LeastKey(ms, ns[0].key);
    LeastKey(ns, ms[0].key);
    if ms[0].key != ns[0].key {
      LessIsAsymmetric(ms[0].key, ns[0].key);
    }
  }

  lemma {:induction false} NormalMembersAreUnique(ms: seq<Member>, ns: seq<Member>)
    requires NormalObject(ms) && NormalObject(ns)
    requires forall i | 0 <= i < |ms| :: IsNormal(ms[i].value)
    requires forall i | 0 <= i < |ns| :: IsNormal(ns[i].value)
    requires MemberMeanings(ms) == MemberMeanings(ns)
    ensures ms == ns
    decreases ms, 0
  {
    hide MemberMeanings, MeaningOf, Keys, Less;
    MeaningKeys(ms);
    MeaningKeys(ns);
    EmptyKeys(ms);
    EmptyKeys(ns);
    if ms != [] && ns != [] {
      SameFirstKey(ms, ns);
      MeaningOfFirst(ms);
      MeaningOfFirst(ns);
      assert MemberMeanings(ms)[ms[0].key] == MeaningOf(ms[0].value);
      assert MemberMeanings(ns)[ms[0].key] == MeaningOf(ns[0].value);
      NormalFormIsUnique(ms[0].value, ns[0].value);
      TailMeaning(ms);
      TailMeaning(ns);
      NormalMembersAreUnique(ms[1..], ns[1..]);
      assert ms == [ms[0]] + ms[1..] && ns == [ns[0]] + ns[1..];
    }
  }

  lemma FirstKeyIsFirst(ms: seq<Member>)
    requires ms != [] && SortedKeys(ms)
    ensures ms[0].key !in Keys(ms[1..])
  {
    hide Less;
    forall k | k in Keys(ms[1..]) ensures k != ms[0].key {
      var i :| 0 <= i < |ms[1..]| && ms[1..][i].key == k;
      assert Less(ms[0].key, ms[i + 1].key);
      LessIsIrreflexive(k);
    }
  }

  lemma MeaningOfFirst(ms: seq<Member>)
    requires ms != [] && !ms[0].value.Null?
    ensures MemberMeanings(ms) == MemberMeanings(ms[1..])[ms[0].key := MeaningOf(ms[0].value)]
  {
    hide MeaningOf;
  }

  lemma TailMeaning(ms: seq<Member>)
    requires ms != [] && NormalObject(ms)
    ensures MemberMeanings(ms[1..]) == MemberMeanings(ms) - {ms[0].key}
  {
    hide MeaningOf, MemberMeanings, SortedKeys, Keys;
    MeaningOfFirst(ms);
    MeaningKeys(ms[1..]);
    FirstKeyIsFirst(ms);
  }

  // Two values print to the same text exactly when they agree once null members are
  // dropped and the order of members is forgotten, at every depth.
  lemma CanonicalIsMeaning(v: Json, w: Json)
    requires WellFormed(v) && WellFormed(w)
    ensures Canonical(v) == Canonical(w) <==> MeaningOf(v) == MeaningOf(w)
  {
    NormalIsNormal(v);
    NormalIsNormal(w);
    if Canonical(v) == Canonical(w) {
      PrintReadsBack(Normal(v), Normal(w), "", "");
    }
    if MeaningOf(v) == MeaningOf(w) {
      NormalFormIsUnique(Normal(v), Normal(w));
    }
  }

  // ---------------------------------------------------------------------------
  // The writer itself: it walks a value once and appends to an output buffer.

  class Buffer {
    var text: string

    constructor ()
      ensures text == ""
    {
      text := "";
    }

    method Push(s: string)
      modifies this
      ensures text == old(text) + s
    {
      text := text + s;
    }
  }

  lemma {:induction false} PrintAppends(v: Json, rest: string)
    ensures Print(v, rest) == Print(v, "") + rest
    decreases v, 1
  {
    match v
    case Str(s) =>
      assert "" + rest == rest;
      StringAppends(s, "", rest);
    case Arr(items) =>
      assert "" + rest == rest;
      ItemsAppend(items, "", rest);
    case Obj(members) =>
      assert "" + rest == rest;
      MembersAppend(members, "", rest);
    case _ =>
  }

  lemma {:induction false} EscapedAppends(s: string, x: string, y: string)
    ensures Escaped(s, x + y) == Escaped(s, x) + y
  {
    if s != "" {
      EscapedAppends(s[1..], x, y);
    }
  }

  lemma StringAppends(s: string, x: string, y: string)
    ensures PrintString(s, x + y) == PrintString(s, x) + y
  {
    Assoc("\"", x, y);
    EscapedAppends(s, "\"" + x, y);
    Assoc("\"", Escaped(s, "\"" + x), y);
  }

  lemma Assoc(a: string, b: string, c: string)
    ensures a + (b + c) == (a + b) + c
  {
  }

  lemma NothingBefore(a: string)
    ensures "" + a == a && a + "" == a
  {
  }

  lemma {:induction false} ItemsAppend(vs: seq<Json>, x: string, y: string)
    ensures PrintItems(vs, x + y) == PrintItems(vs, x) + y
    decreases vs, 0
  {
    Assoc("]", x, y);
    if vs != [] {
      var a := if |vs| == 1 then "]" + x else "," + PrintItems(vs[1..], x);
      if |vs| > 1 {
        ItemsAppend(vs[1..], x, y);
        Assoc(",", PrintItems(vs[1..], x), y);
      }
      PrintAppends(vs[0], a);
      PrintAppends(vs[0], a + y);
      Assoc(Print(vs[0], ""), a, y);
    }
  }

  lemma {:induction false} MembersAppend(ms: seq<Member>, x: string, y: string)
    ensures PrintMembers(ms, x + y) == PrintMembers(ms, x) + y
    decreases ms, 0
  {
    Assoc("}", x, y);
    if ms != [] {
      var a := if |ms| == 1 then "}" + x else "," + PrintMembers(ms[1..], x);
      if |ms| > 1 {
        MembersAppend(ms[1..], x, y);
        Assoc(",", PrintMembers(ms[1..], x), y);
      }
      MemberAppends(ms[0], a, y);
    }
  }

  lemma {:induction false} MemberAppends(m: Member, a: string, y: string)
    ensures PrintString(m.key, ":" + Print(m.value, a + y)) == PrintString(m.key, ":" + Print(m.value, a)) + y
    decreases m, 0
  {
    assert m.value < m;
    PrintAppends(m.value, a);
    PrintAppends(m.value, a + y);
    Assoc(Print(m.value, ""), a, y);
    Assoc(":", Print(m.value, a), y);
    StringAppends(m.key, ":" + Print(m.value, a), y);
  }

  // What is still to be written after i items, or i members, of a list.
  ghost function ItemsLeft(vs: seq<Json>, i: nat): (r: string)
    requires i <= |vs|
  {
    if i == 0 then PrintItems(vs, "") else if i == |vs| then "]" else "," + PrintItems(vs[i..], "")
  }

  ghost function MembersLeft(ms: seq<Member>, i: nat): (r: string)
    requires i <= |ms|
  {
    if i == 0 then PrintMembers(ms, "")
    else if i == |ms| then "}"
    else "," + PrintMembers(ms[i..], "")
  }

  lemma FirstItem(vs: seq<Json>, left: string)
    requires vs != []
    requires left == if |vs| == 1 then "]" else "," + PrintItems(vs[1..], "")
    ensures PrintItems(vs, "") == Print(vs[0], "") + left
  {
    NothingBefore("]");
    PrintAppends(vs[0], left);
  }

  lemma ItemsLeftStep(vs: seq<Json>, i: nat)
    requires i < |vs|
    ensures ItemsLeft(vs, i)
      == (if i > 0 then "," else "") + (Print(vs[i], "") + ItemsLeft(vs, i + 1))
  {
    var tail := vs[i..];
    assert tail[1..] == vs[i + 1..] && vs[0..] == vs;
    FirstItem(tail, ItemsLeft(vs, i + 1));
    NothingBefore(PrintItems(tail, ""));
  }

  lemma FirstMember(ms: seq<Member>, left: string)
    requires ms != []
    requires left == if |ms| == 1 then "}" else "," + PrintMembers(ms[1..], "")
    ensures PrintMembers(ms, "")
      == PrintString(ms[0].key, "") + (":" + (Print(ms[0].value, "") + left))
  {
    NothingBefore("}");
    PrintAppends(ms[0].value, left);
    var after := ":" + (Print(ms[0].value, "") + left);
    NothingBefore(after);
    StringAppends(ms[0].key, "", after);
  }

  lemma MembersLeftStep(ms: seq<Member>, i: nat)
    requires i < |ms|
    ensures MembersLeft(ms, i)
      == (if i > 0 then "," else "")
         + (PrintString(ms[i].key, "") + (":" + (Print(ms[i].value, "") + MembersLeft(ms, i + 1))))
  {
    var tail := ms[i..];
    assert tail[1..] == ms[i + 1..] && ms[0..] == ms;
    FirstMember(tail, MembersLeft(ms, i + 1));
    NothingBefore(PrintMembers(tail, ""));
  }

  // Pushing the parts of one member moves them from what is left to what is written.
  lemma PushMember(text: string, comma: string, key: string, value: string, left: string)
    ensures text + (comma + (key + (":" + (value + left))))
      == (((text + comma) + key) + ":" + value) + left
  {
  }

  lemma PushItem(text: string, comma: string, value: string, left: string)
    ensures text + (comma + (value + left)) == ((text + comma) + value) + left
  {
  }

  // What the text looks like (section 2 of RFC 8259, without white space).
  lemma LiteralsLookLike(rest: string)
    ensures Print(Null, "") == "null" && Print(Bool(true), "") == "true" && Print(Bool(false), "") == "false"
    ensures Print(Arr([]), "") == "[]" && Print(Obj([]), "") == "{}" && Print(Str(""), "") == "\"\""
  {
  }

  // Texts one after the other, with commas between them.
  function Commas(texts: seq<string>): (r: string) {
    if texts == [] then "" else if |texts| == 1 then texts[0] else texts[0] + "," + Commas(texts[1..])
  }

  function ItemTexts(vs: seq<Json>): (r: seq<string>) {
    seq(|vs|, i requires 0 <= i < |vs| => Print(vs[i], ""))
  }

  // A member alone: its key as a string, a colon, its value.
  function MemberText(m: Member): (r: string) {
    Print(Str(m.key), "") + ":" + Print(m.value, "")
  }

  function MemberTexts(ms: seq<Member>): (r: seq<string>) {
    seq(|ms|, i requires 0 <= i < |ms| => MemberText(ms[i]))
  }

  lemma Regroup(a: string, b: string, c: string, d: string)
    ensures a + (b + (c + d)) == a + b + c + d
    ensures a + (b + c) == a + b + c
  {
  }

  lemma {:induction false} ItemsJoined(vs: seq<Json>)
    ensures PrintItems(vs, "") == Commas(ItemTexts(vs)) + "]"
  {
    hide Print;
    NothingBefore("]");
    if |vs| == 1 {
      FirstItem(vs, "]");
    } else if |vs| > 1 {
      ItemsJoined(vs[1..]);
      assert ItemTexts(vs)[1..] == ItemTexts(vs[1..]);
      FirstItem(vs, "," + PrintItems(vs[1..], ""));
      hide PrintItems;
      Regroup(Print(vs[0], ""), ",", Commas(ItemTexts(vs[1..])), "]");
    }
  }

  // For every array: its items, in their order.
  lemma ArrayLooksLike(vs: seq<Json>)
    ensures Print(Arr(vs), "") == "[" + Commas(ItemTexts(vs)) + "]"
  {
    ItemsJoined(vs);
    hide PrintItems, Commas, ItemTexts;
    Regroup("[", Commas(ItemTexts(vs)), "]", "");
  }

  lemma MemberFirst(ms: seq<Member>, left: string)
    requires ms != [] && left == if |ms| == 1 then "}" else "," + PrintMembers(ms[1..], "")
    ensures PrintMembers(ms, "") == MemberText(ms[0]) + left
  {
    hide PrintMembers;
    FirstMember(ms, left);
    assert Print(Str(ms[0].key), "") == PrintString(ms[0].key, "");
    hide Print, PrintString;
    Regroup(Print(Str(ms[0].key), ""), ":", Print(ms[0].value, ""), left);
  }

  lemma {:induction false} MembersJoined(ms: seq<Member>)
    ensures PrintMembers(ms, "") == Commas(MemberTexts(ms)) + "}"
  {
    hide Print, MemberText;
    NothingBefore("}");
    if |ms| == 1 {
      MemberFirst(ms, "}");
    } else if |ms| > 1 {
      MembersJoined(ms[1..]);
      assert MemberTexts(ms)[1..] == MemberTexts(ms[1..]);
      MemberFirst(ms, "," + PrintMembers(ms[1..], ""));
      hide PrintMembers;
      Regroup(MemberText(ms[0]), ",", Commas(MemberTexts(ms[1..])), "}");
    }
  }

  // For every object: its members, in their order.
  lemma ObjectLooksLike(ms: seq<Member>)
    ensures Print(Obj(ms), "") == "{" + Commas(MemberTexts(ms)) + "}"
  {
    MembersJoined(ms);
    hide PrintMembers, Commas, MemberTexts;
    Regroup("{", Commas(MemberTexts(ms)), "}", "");
  }

  // Every string: between quotes, character by character.
  lemma StringLooksLike(s: string, c: char)
    ensures Print(Str(s), "") == "\"" + Escaped(s, "") + "\""
    ensures Escaped(s + [c], "") == Escaped(s, "") + EscapeChar(c)
  {
    NothingBefore("\"");
    EscapedAppends(s, "", "\"");
    Regroup("\"", Escaped(s, ""), "\"", "");
    LastEscaped(s, c);
  }

  lemma {:induction false} LastEscaped(s: string, c: char)
    ensures Escaped(s + [c], "") == Escaped(s, "") + EscapeChar(c)
  {
    hide EscapeChar;
    if s == "" {
      assert "" + [c] == [c] && [c][1..] == "";
      NothingBefore(EscapeChar(c));
    } else {
      LastEscaped(s[1..], c);
      assert (s + [c])[1..] == s[1..] + [c] && (s + [c])[0] == s[0];
    }
  }

  // The escapes of a string (section 7 of RFC 8259); everything else stands for itself.
  lemma EscapesLookLike(c: char)
    ensures EscapeChar('\"') == "\\\"" && EscapeChar('\\') == "\\\\"
    ensures EscapeChar('\n') == "\\n" && EscapeChar('\r') == "\\r" && EscapeChar('\t') == "\\t"
    ensures EscapeChar('\U{08}') == "\\b" && EscapeChar('\U{0C}') == "\\f"
    ensures EscapeChar('\U{01}') == "\\u0001" && EscapeChar('\U{1F}') == "\\u001f" && EscapeChar('/') == "/"
    ensures c >= ' ' && c != '\"' && c != '\\' ==> EscapeChar(c) == [c]
    ensures Print(Str([c]), "") == "\"" + (EscapeChar(c) + "\"")
  {
    assert [c][1..] == "";
    assert Escaped([c], "\"" + "") == EscapeChar(c) + Escaped("", "\"" + "");
    assert "\"" + "" == "\"";
  }

  // The keys alone, in the order of the members.
  function KeyList(ms: seq<Member>): (r: seq<string>)
    ensures |r| == |ms| && forall i | 0 <= i < |ms| :: r[i] == ms[i].key
  {
    seq(|ms|, i requires 0 <= i < |ms| => ms[i].key)
  }

  function InsertKey(k: string, ks: seq<string>): (r: seq<string>)
    ensures |r| == |ks| + 1
  {
    if ks == [] || !Less(ks[0], k) then [k] + ks else [ks[0]] + InsertKey(k, ks[1..])
  }

  // Rust's `sort` on a vector of strings.
  function SortKeys(ks: seq<string>): (r: seq<string>)
    ensures |r| == |ks|
  {
    if ks == [] then [] else InsertKey(ks[0], SortKeys(ks[1..]))
  }

  lemma {:induction false} InsertKeyOfMembers(m: Member, ms: seq<Member>)
    ensures KeyList(InsertSorted(m, ms)) == InsertKey(m.key, KeyList(ms))
  {
    if ms == [] || !Less(ms[0].key, m.key) {
    } else {
      InsertKeyOfMembers(m, ms[1..]);
      assert KeyList(ms)[1..] == KeyList(ms[1..]);
    }
  }

  lemma {:induction false} SortKeysOfMembers(ms: seq<Member>)
    ensures KeyList(Sorted(ms)) == SortKeys(KeyList(ms))
  {
    if ms != [] {
      SortKeysOfMembers(ms[1..]);
      InsertKeyOfMembers(ms[0], Sorted(ms[1..]));
      assert KeyList(ms)[1..] == KeyList(ms[1..]);
    }
  }

  // The keys whose member is not null, as the filter over the map's entries yields them.
  function KeptKeys(ms: seq<Member>): (r: seq<string>)
    ensures |r| == |NormalMembers(ms)|
  {
    if ms == [] then []
    else (if ms[0].value.Null? then [] else [ms[0].key]) + KeptKeys(ms[1..])
  }

  lemma KeptStep(ms: seq<Member>)
    requires ms != []
    ensures KeptKeys(ms) == (if ms[0].value.Null? then [] else [ms[0].key]) + KeptKeys(ms[1..])
    ensures NormalMembers(ms)
      == (if ms[0].value.Null? then [] else [Member(ms[0].key, Normal(ms[0].value))]) + NormalMembers(ms[1..])
  {
    hide Normal;
  }

  lemma KeysOfJoin(ms: seq<Member>, ns: seq<Member>)
    ensures KeyList(ms + ns) == KeyList(ms) + KeyList(ns)
  {
  }

  lemma {:induction false} KeptKeysOfNormal(ms: seq<Member>)
    ensures KeyList(NormalMembers(ms)) == KeptKeys(ms)
  {
    if ms != [] {
      hide Normal, NormalMembers, KeptKeys;
      KeptKeysOfNormal(ms[1..]);
      KeptStep(ms);
      KeysOfJoin(if ms[0].value.Null? then [] else [Member(ms[0].key, Normal(ms[0].value))], NormalMembers(ms[1..]));
    }
  }

  lemma {:induction false} NormalMemberOrigin(ms: seq<Member>, j: nat)
    requires j < |NormalMembers(ms)|
    ensures exists i | 0 <= i < |ms| ::
      NormalMembers(ms)[j] == Member(ms[i].key, Normal(ms[i].value))
  {
    if ms[0].value.Null? {
      NormalMemberOrigin(ms[1..], j);
      var i :| 0 <= i < |ms[1..]| &&
        NormalMembers(ms[1..])[j] == Member(ms[1..][i].key, Normal(ms[1..][i].value));
      assert ms[i + 1] == ms[1..][i];
    } else if j == 0 {
      assert NormalMembers(ms)[0] == Member(ms[0].key, Normal(ms[0].value));
    } else {
      NormalMemberOrigin(ms[1..], j - 1);
      var i :| 0 <= i < |ms[1..]| &&
        NormalMembers(ms[1..])[j - 1] == Member(ms[1..][i].key, Normal(ms[1..][i].value));
      assert ms[i + 1] == ms[1..][i];
    }
  }

  // The i-th sorted key names the i-th normal member, and looking it up finds that member.
  lemma SortedKeyFindsMember(ms: seq<Member>, j: nat)
    requires DistinctKeys(ms) && j < |Sorted(NormalMembers(ms))|
    ensures var m := Sorted(NormalMembers(ms))[j];
      m.key == SortKeys(KeptKeys(ms))[j] &&
      (exists i | 0 <= i < |ms| :: ms[i].key == m.key) &&
      forall i | 0 <= i < |ms| && ms[i].key == m.key :: m.value == Normal(ms[i].value)
  {
    var norm := NormalMembers(ms);
    var m := Sorted(norm)[j];
    SortKeysOfMembers(norm);
    KeptKeysOfNormal(ms);
    SortKeepsMembers(norm);
    assert m in multiset(Sorted(norm));
    var n :| 0 <= n < |norm| && norm[n] == m;
    NormalMemberOrigin(ms, n);
  }

  // Where a key is found in an object.
  method IndexOf(ms: seq<Member>, key: string) returns (i: nat)
    requires exists j | 0 <= j < |ms| :: ms[j].key == key
    ensures i < |ms| && ms[i].key == key
  {
    i := 0;
    while ms[i].key != key
      invariant i < |ms| && forall j | 0 <= j < i :: ms[j].key != key
      decreases |ms| - i
    {
      var j :| 0 <= j < |ms| && ms[j].key == key;
      assert j > i;
      i := i + 1;
    }
  }

  method Write(v: Json, out: Buffer)
    requires WellFormed(v)
    modifies out
    ensures out.text == old(out.text) + Canonical(v)
    decreases v, 1
  {
    match v
    case Obj(members) => WriteObject(members, out);
    case Arr(items) => WriteArray(items, out);
    case _ => out.Push(Print(v, ""));
  }

  method WriteObject(members: seq<Member>, out: Buffer)
    requires WellFormed(Obj(members))
    modifies out
    ensures out.text == old(out.text) + Canonical(Obj(members))
    decreases members, 0
  {
    var keys := SortKeys(KeptKeys(members));
    ghost var sorted := Sorted(NormalMembers(members));
    Assoc(out.text, "{", PrintMembers(sorted, ""));
    out.Push("{");
    ghost var target := out.text + MembersLeft(sorted, 0);
    for i := 0 to |keys|
      invariant |keys| == |sorted| && out.text + MembersLeft(sorted, i) == target
    {
      ghost var before, comma := out.text, if i > 0 then "," else "";
      NothingBefore(before);
      if i > 0 {
        out.Push(",");
      }
      SortedKeyFindsMember(members, i);
      out.Push(PrintString(keys[i], ""));
      out.Push(":");
      var at := IndexOf(members, keys[i]);
      assert members[at].value < members[at];
      Write(members[at].value, out);
      MembersLeftStep(sorted, i);
      PushMember(before, comma, PrintString(keys[i], ""), Canonical(members[at].value),
                 MembersLeft(sorted, i + 1));
    }
    NothingBefore("}");
    out.Push("}");
  }

  method WriteArray(items: seq<Json>, out: Buffer)
    requires WellFormed(Arr(items))
    modifies out
    ensures out.text == old(out.text) + Canonical(Arr(items))
    decreases items, 0
  {
    ghost var norm := NormalItems(items);
    Assoc(out.text, "[", PrintItems(norm, ""));
    out.Push("[");
    ghost var target := out.text + ItemsLeft(norm, 0);
    for i := 0 to |items|
      invariant out.text + ItemsLeft(norm, i) == target
    {
      ghost var before, comma := out.text, if i > 0 then "," else "";
      NothingBefore(before);
      if i > 0 {
        out.Push(",");
      }
      Write(items[i], out);
      ItemsLeftStep(norm, i);
      PushItem(before, comma, Canonical(items[i]), ItemsLeft(norm, i + 1));
    }
    NothingBefore("]");
    out.Push("]");
  }

  method CanonicalText(v: Json) returns (text: string)
    requires WellFormed(v)
    ensures text == Canonical(v)
  {
    var out := new Buffer();
    Write(v, out);
    text := out.text;
  }
}
