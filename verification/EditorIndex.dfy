/** The two-way editor index: token -> editors and editor -> tokens. */
module EditorIndex {
  import opened TransferLog

  datatype Editors = Editors(byToken: map<TokenId, seq<Address>>, byEditor: map<Address, seq<TokenId>>) {
    /** The maps are exact inverses, hold no empty list, and no token twice under one editor. */
    ghost predicate Inverse() {
      match this
      case Editors(tokens, editors) =>
        && (forall a, t :: a in editors && t in editors[a] ==> t in tokens && a in tokens[t])
        && (forall t, a :: t in tokens && a in tokens[t] ==> a in editors && t in editors[a])
        && (forall a :: a in editors ==> editors[a] != [] && Distinct(editors[a]))
        && (forall t :: t in tokens ==> tokens[t] != [])
    }
  }

  const NO_EDITORS := Editors(map[], map[])

  ghost predicate Distinct(s: seq<TokenId>) {
    forall i, j :: 0 <= i < j < |s| ==> s[i] != s[j]
  }

  function Without(s: seq<TokenId>, t: TokenId): (r: seq<TokenId>)
    ensures forall u :: u in r <==> u in s && u != t
    ensures Distinct(s) ==> Distinct(r)
  {
    if s == [] then [] else
    var kept := Without(s[..|s| - 1], t);
    assert Distinct(s) ==> Distinct(s[..|s| - 1]) && s[|s| - 1] !in s[..|s| - 1];
    assert forall i :: 0 <= i < |kept| ==> kept[i] in kept;
    kept + (if s[|s| - 1] == t then [] else [s[|s| - 1]])
  }

  function DropOne(byEditor: map<Address, seq<TokenId>>, a: Address, t: TokenId): map<Address, seq<TokenId>> {
    if a !in byEditor then byEditor
    else if Without(byEditor[a], t) == [] then byEditor - {a}
    else byEditor[a := Without(byEditor[a], t)]
  }

  function Drop(byEditor: map<Address, seq<TokenId>>, editors: seq<Address>, t: TokenId): map<Address, seq<TokenId>> {
    if editors == [] then byEditor
    else DropOne(Drop(byEditor, editors[..|editors| - 1], t), editors[|editors| - 1], t)
  }

  function AddOne(byEditor: map<Address, seq<TokenId>>, a: Address, t: TokenId): map<Address, seq<TokenId>> {
    var existing := if a in byEditor then byEditor[a] else [];
    if t in existing then byEditor else byEditor[a := existing + [t]]
  }

  function Add(byEditor: map<Address, seq<TokenId>>, editors: seq<Address>, t: TokenId): map<Address, seq<TokenId>> {
    if editors == [] then byEditor
    else AddOne(Add(byEditor, editors[..|editors| - 1], t), editors[|editors| - 1], t)
  }

  function Remove(e: Editors, t: TokenId): Editors {
    if t !in e.byToken then e else Editors(e.byToken - {t}, Drop(e.byEditor, e.byToken[t], t))
  }

  function Replace(e: Editors, t: TokenId, editors: seq<Address>): Editors {
    var e1 := Remove(e, t);
    if editors == [] then e1 else Editors(e1.byToken[t := editors], Add(e1.byEditor, editors, t))
  }

  /** Membership in a reverse list, with a missing list read as empty. */
  predicate Lists(byEditor: map<Address, seq<TokenId>>, a: Address, t: TokenId) {
    a in byEditor && t in byEditor[a]
  }

  ghost predicate Tidy(byEditor: map<Address, seq<TokenId>>) {
    forall a :: a in byEditor ==> byEditor[a] != [] && Distinct(byEditor[a])
  }

  lemma DropOneLists(byEditor: map<Address, seq<TokenId>>, x: Address, t: TokenId)
    requires Tidy(byEditor)
    ensures Tidy(DropOne(byEditor, x, t))
    ensures forall a, u :: Lists(DropOne(byEditor, x, t), a, u) <==> Lists(byEditor, a, u) && !(u == t && a == x)
  {
  }

  lemma {:induction false} DropLists(byEditor: map<Address, seq<TokenId>>, editors: seq<Address>, t: TokenId)
    requires Tidy(byEditor)
    ensures Tidy(Drop(byEditor, editors, t))
    ensures forall a, u :: Lists(Drop(byEditor, editors, t), a, u) <==> Lists(byEditor, a, u) && !(u == t && a in editors)
  {
    if editors != [] {
      var rest, x := editors[..|editors| - 1], editors[|editors| - 1];
      DropLists(byEditor, rest, t);
      DropOneLists(Drop(byEditor, rest, t), x, t);
      assert forall a :: a in editors <==> a in rest || a == x;
    }
  }

  lemma AddOneLists(byEditor: map<Address, seq<TokenId>>, x: Address, t: TokenId)
    requires Tidy(byEditor)
    ensures Tidy(AddOne(byEditor, x, t))
    ensures forall a, u :: Lists(AddOne(byEditor, x, t), a, u) <==> Lists(byEditor, a, u) || (u == t && a == x)
  {
    var existing := if x in byEditor then byEditor[x] else [];
    assert forall u :: u in existing + [t] <==> u in existing || u == t;
  }

  lemma {:induction false} AddLists(byEditor: map<Address, seq<TokenId>>, editors: seq<Address>, t: TokenId)
    requires Tidy(byEditor)
    ensures Tidy(Add(byEditor, editors, t))
    ensures forall a, u :: Lists(Add(byEditor, editors, t), a, u) <==> Lists(byEditor, a, u) || (u == t && a in editors)
  {
    if editors != [] {
      var rest, x := editors[..|editors| - 1], editors[|editors| - 1];
      AddLists(byEditor, rest, t);
      AddOneLists(Add(byEditor, rest, t), x, t);
      assert forall a :: a in editors <==> a in rest || a == x;
    }
  }

  /** Removing a token forgets it on both sides and touches nothing else. */
  lemma RemoveKeepsInverse(e: Editors, t: TokenId)
    requires e.Inverse()
    ensures Remove(e, t).Inverse() && Remove(e, t).byToken == e.byToken - {t}
    ensures forall a, u :: Lists(Remove(e, t).byEditor, a, u) <==> Lists(e.byEditor, a, u) && u != t
  {
    if t in e.byToken {
      DropLists(e.byEditor, e.byToken[t], t);
      var r := Remove(e, t);
      forall a, u ensures Lists(r.byEditor, a, u) <==> u in r.byToken && a in r.byToken[u] {
        assert Lists(e.byEditor, a, u) <==> u in e.byToken && a in e.byToken[u];
      }
      InverseByLists(r);
    }
  }

  /** The inverse relation, stated through list membership. */
  lemma InverseByLists(e: Editors)
    requires Tidy(e.byEditor) && forall t :: t in e.byToken ==> e.byToken[t] != []
    requires forall a, u :: Lists(e.byEditor, a, u) <==> u in e.byToken && a in e.byToken[u]
    ensures e.Inverse()
  {
    forall a, t | a in e.byEditor && t in e.byEditor[a] ensures t in e.byToken && a in e.byToken[t] {
      assert Lists(e.byEditor, a, t);
    }
    forall t, a | t in e.byToken && a in e.byToken[t] ensures a in e.byEditor && t in e.byEditor[a] {
      assert Lists(e.byEditor, a, t);
    }
  }

  lemma ReplacedLists(e: Editors, t: TokenId, editors: seq<Address>, a: Address, u: TokenId)
    requires e.Inverse() && editors != []
    ensures
      var r := Replace(e, t, editors);
      Lists(r.byEditor, a, u) <==> u in r.byToken && a in r.byToken[u]
  {
    var e1 := Remove(e, t);
    RemoveKeepsInverse(e, t);
    AddLists(e1.byEditor, editors, t);
    assert Lists(e1.byEditor, a, u) <==> u in e1.byToken && a in e1.byToken[u];
  }

  /** Replacing a token's editors, duplicates included, keeps the maps inverse. */
  lemma ReplaceKeepsInverse(e: Editors, t: TokenId, editors: seq<Address>)
    requires e.Inverse()
    ensures Replace(e, t, editors).Inverse()
    ensures Replace(e, t, editors).byToken == if editors == [] then e.byToken - {t} else e.byToken[t := editors]
  {
    var e1 := Remove(e, t);
    RemoveKeepsInverse(e, t);
    if editors != [] {
      AddLists(e1.byEditor, editors, t);
      forall a, u { ReplacedLists(e, t, editors, a, u); }
      InverseByLists(Replace(e, t, editors));
      assert Replace(e, t, editors).byToken == e.byToken[t := editors];
    }
  }
}
