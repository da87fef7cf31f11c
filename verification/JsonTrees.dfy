/**
  Every tree can be written: the documents of `JsonText` reach all trees whose
  numbers are numbers, so reading undoes writing on all of them.
 */
module JsonTrees {
  import opened JsonText
  import opened JsonGrammar
  import opened JsonWriter

  /** Numbers are kept as text, and that text must be one the reader takes for a number. */
  predicate IsTree(j: Json) {
    match j
    case Number(digits) => digits != [] && forall i :: 0 <= i < |digits| ==> IsNumberUnit(digits[i])
    case Array(items) => forall i :: 0 <= i < |items| ==> IsTree(items[i])
    case Object(members) => forall k :: k in members ==> IsTree(members[k])
    case _ => true
  }

  /** `done` with the members named in `keys` put onto it. */
  function Put(done: map<Text, Json>, members: map<Text, Json>, keys: set<Text>): map<Text, Json>
    requires keys <= members.Keys
  {
    done + map k | k in keys :: members[k]
  }

  /** Written as the bindings write: their escaping for every string, no white space. */
  predicate InStyle(d: Doc) {
    match d
    case DString(pieces) => IsPrinted(pieces)
    case DEmptyArray(space) => space == []
    case DEmptyObject(space) => space == []
    case DArray(items) => ItemsInStyle(items)
    case DObject(members) => MembersInStyle(members)
    case _ => true
  }

  predicate ItemsInStyle(items: Items) {
    items.before == items.after == [] && InStyle(items.item) && (items.MoreItems? ==> ItemsInStyle(items.others))
  }

  predicate MembersInStyle(members: Members) {
    && members.before == members.middle == members.lead == members.after == []
    && IsPrinted(members.name) && InStyle(members.item)
    && (members.MoreMembers? ==> MembersInStyle(members.others))
  }

  predicate IsPrinted(pieces: seq<Piece>) {
    PiecesValid(pieces) && pieces == PiecesOf(PiecesChars(pieces))
  }

  lemma {:induction false} TreeHasDocument(j: Json) returns (d: Doc)
    requires IsTree(j)
    ensures Valid(d) && Meaning(d) == j && InStyle(d)
    decreases j, 1, 0
  {
    match j
    case Null => d := DNull;
    case Bool(flag) => d := DBool(flag);
    case Number(digits) => d := DNumber(digits);
    case String(chars) =>
      PiecesRead(chars);
      d := DString(PiecesOf(chars));
    case Array(items) =>
      if items == [] {
        d := DEmptyArray([]);
      } else {
        var written := ItemsFrom(j, 0);
        d := DArray(written);
      }
    case Object(members) =>
      if members.Keys == {} {
        d := DEmptyObject([]);
        assert members == map[];
      } else {
        var written := MembersFrom(j, members.Keys, map[]);
        d := DObject(written);
        assert Put(map[], members, members.Keys) == members;
      }
  }

  /** The items from the `i`-th on. */
  lemma {:induction false} ItemsFrom(j: Json, i: nat) returns (items: Items)
    requires j.Array? && i < |j.items| && IsTree(j)
    ensures ItemsValid(items) && ItemsMeaning(items) == j.items[i..] && ItemsInStyle(items)
    decreases j, 0, |j.items| - i
  {
    hide Valid, Meaning, InStyle;
    var d := TreeHasDocument(j.items[i]);
    if i + 1 < |j.items| {
      var others := ItemsFrom(j, i + 1);
      items := MoreItems([], d, [], others);
    } else {
      items := LastItem([], d, []);
    }
  }

  /** The members of the names in `keys`, in any order. */
  lemma {:induction false} MembersFrom(j: Json, keys: set<Text>, done: map<Text, Json>) returns (members: Members)
    requires j.Object? && keys <= j.members.Keys && keys != {} && IsTree(j)
    ensures MembersValid(members) && MembersMeaning(members, done) == Put(done, j.members, keys)
    ensures MembersInStyle(members)
    decreases j, 0, |keys|
  {
    hide Valid, Meaning, InStyle, PiecesValid, PiecesChars, PiecesOf, Put, IsNumberUnit;
    var k :| k in keys;
    var d := TreeHasDocument(j.members[k]);
    PiecesRead(k);
    var rest, done' := keys - {k}, done[k := j.members[k]];
    PutOne(done, j.members, keys, k);
    if rest != {} {
      var others := MembersFrom(j, rest, done');
      members := MoreMembers([], PiecesOf(k), [], [], d, [], others);
    } else {
      members := LastMember([], PiecesOf(k), [], [], d, []);
    }
  }

  lemma PutOne(done: map<Text, Json>, members: map<Text, Json>, keys: set<Text>, k: Text)
    requires keys <= members.Keys && k in keys
    ensures var rest, done' := keys - {k}, done[k := members[k]];
      Put(done', members, rest) == Put(done, members, keys) && (rest == {} ==> done' == Put(done, members, keys))
  {
    var rest, done' := keys - {k}, done[k := members[k]];
    assert keys == rest + {k};
    assert Put(done', members, rest) == Put(done, members, keys);
    if rest == {} {
      assert Put(done', members, rest) == done';
    }
  }

  /**
    Every tree has a text, and any text that spells it, whatever its white
    space, its escapes and the order of its members, is read as that tree.
   */
  lemma EveryTreeIsRead(j: Json)
    ensures (exists text, d :: Spells(text, d) && Meaning(d) == j) <==> IsTree(j)
    ensures forall text, d :: Spells(text, d) && Meaning(d) == j ==> PDocument(text) == Ok(j, [])
  {
    hide Valid, Written, Meaning, IsTree, PDocument;
    forall text, d | Spells(text, d)
      ensures PDocument(text) == Ok(Meaning(d), []) && IsTree(Meaning(d))
    {
      SpelledIsRead(text, d);
      MeaningIsTree(d);
    }
    if IsTree(j) {
      var d := TreeHasDocument(j);
      SpellsItself(d);
    }
  }

  lemma SpellsItself(d: Doc)
    requires Valid(d)
    ensures Spells(Written(d), d)
  {
    hide Valid, Written;
    var none: Text := [];
    assert AllSpace(none);
    assert Written(d) == none + (Written(d) + none);
  }

  lemma {:induction false} MeaningIsTree(d: Doc)
    requires Valid(d)
    ensures IsTree(Meaning(d))
    decreases d
  {
    match d
    case DArray(items) => ItemsAreTrees(items);
    case DObject(members) => MembersAreTrees(members, map[]);
    case _ =>
  }

  lemma {:induction false} ItemsAreTrees(items: Items)
    requires ItemsValid(items)
    ensures forall i :: 0 <= i < |ItemsMeaning(items)| ==> IsTree(ItemsMeaning(items)[i])
    decreases items
  {
    hide IsTree, Meaning;
    MeaningIsTree(items.item);
    if items.MoreItems? {
      ItemsAreTrees(items.others);
    }
  }

  lemma {:induction false} MembersAreTrees(members: Members, done: map<Text, Json>)
    requires MembersValid(members) && forall k :: k in done ==> IsTree(done[k])
    ensures forall k :: k in MembersMeaning(members, done) ==> IsTree(MembersMeaning(members, done)[k])
    decreases members
  {
    hide IsTree, Meaning, PiecesChars;
    MeaningIsTree(members.item);
    if members.MoreMembers? {
      MembersAreTrees(members.others, done[PiecesChars(members.name) := Meaning(members.item)]);
    }
  }

  // ---------- The writer's own documents ----------

  /** What the bindings write of a dictionary is a document in this style. */
  lemma WriterIsInStyle(pairs: seq<Pair>)
    ensures InStyle(DocOf(pairs)) && Written(DocOf(pairs)) == ObjectText(pairs)
  {
    hide PairsText, MembersOf;
    if pairs == [] {
      EmptyPairs();
    } else {
      MembersAreInStyle(pairs);
      PairsAreMembers(pairs, map[]);
    }
  }

  lemma {:induction false} MembersAreInStyle(pairs: seq<Pair>)
    requires pairs != []
    ensures MembersInStyle(MembersOf(pairs))
  {
    hide PiecesChars, PiecesOf, PiecesValid;
    PiecesRead(pairs[0].key);
    PiecesRead(pairs[0].value);
    if |pairs| > 1 {
      MembersAreInStyle(pairs[1..]);
    }
  }
}
