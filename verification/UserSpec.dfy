/** AddUser's retries. MySQL reports a duplicate by a message that quotes the offending value
    before it names the key, and AddUser looks for the key's name anywhere in that message. */
module UserSpec {
  import opened Common
  import opened AuthSpec

  predicate OccursAt(s: string, needle: string, i: nat) {
    i + |needle| <= |s| && s[i..i + |needle|] == needle
  }

  /** strings.Contains */
  predicate Contains(s: string, needle: string) {
    exists i: nat :: i <= |s| && OccursAt(s, needle, i)
  }

  const PRIMARY_KEY := "users.PRIMARY"
  const NAME_KEY := "users.name"
  const DUPLICATE := "Duplicate entry "
  const FOR_KEY := " for key "
  const QUOTE := '\''

  function DuplicateMessage(value: string, key: string): string {
    DUPLICATE + [QUOTE] + value + [QUOTE] + FOR_KEY + [QUOTE] + key + [QUOTE]
  }

  lemma OccursInPart(a: string, part: string, b: string, needle: string, i: nat)
    requires OccursAt(part, needle, i)
    ensures OccursAt(a + part + b, needle, |a| + i)
  {
  }

  lemma NoQuoteInside(s: string, needle: string, i: nat, q: nat)
    requires QUOTE !in needle && OccursAt(s, needle, i)
    requires q < |s| && s[q] == QUOTE
    ensures q < i || i + |needle| <= q
  {
  }

  lemma OccursBesideQuote(a: string, b: string, needle: string, i: nat)
    requires QUOTE !in needle && needle != [] && OccursAt(a + [QUOTE] + b, needle, i)
    ensures if i < |a| then OccursAt(a, needle, i) else i > |a| && OccursAt(b, needle, i - |a| - 1)
  {
    var s := a + [QUOTE] + b;
    NoQuoteInside(s, needle, i, |a|);
    if i < |a| {
      assert a[i..i + |needle|] == s[i..i + |needle|];
    } else {
      assert b[i - |a| - 1..i - |a| - 1 + |needle|] == s[i..i + |needle|];
    }
  }

  /** A needle without quotes is found on one side of a quote or on the other. */
  lemma ContainsAcrossQuote(a: string, b: string, needle: string)
    requires QUOTE !in needle && needle != []
    ensures Contains(a + [QUOTE] + b, needle) <==> Contains(a, needle) || Contains(b, needle)
  {
    var s := a + [QUOTE] + b;
    assert [] + a + ([QUOTE] + b) == s && (a + [QUOTE]) + b + [] == s;
    forall i: nat | OccursAt(a, needle, i) ensures OccursAt(s, needle, i) {
      OccursInPart([], a, [QUOTE] + b, needle, i);
    }
    forall i: nat | OccursAt(b, needle, i) ensures OccursAt(s, needle, |a| + 1 + i) {
      OccursInPart(a + [QUOTE], b, [], needle, i);
    }
    forall i: nat | OccursAt(s, needle, i)
      ensures if i < |a| then OccursAt(a, needle, i) else i > |a| && OccursAt(b, needle, i - |a| - 1)
    {
      OccursBesideQuote(a, b, needle, i);
    }
  }

  /** Text without a capital Y does not contain "users.PRIMARY". */
  lemma NoPrimaryWithoutY(s: string)
    requires 'Y' !in s
    ensures !Contains(s, PRIMARY_KEY)
  {
    forall i: nat ensures !OccursAt(s, PRIMARY_KEY, i) {
      if i + |PRIMARY_KEY| <= |s| {
        assert s[i..i + |PRIMARY_KEY|][12] == s[i + 12];
        assert PRIMARY_KEY[12] == 'Y';
      }
    }
  }

  /** The test AddUser makes: it is always true of a clash of ids, and true of a clash of names
      exactly when the name itself contains "users.PRIMARY". */
  lemma PrimaryTest(value: string)
    ensures Contains(DuplicateMessage(value, PRIMARY_KEY), PRIMARY_KEY)
    ensures Contains(DuplicateMessage(value, NAME_KEY), PRIMARY_KEY) <==> Contains(value, PRIMARY_KEY)
    ensures Contains(DuplicateMessage(value, NAME_KEY), NAME_KEY)
  {
    KeyIsNamed(value, PRIMARY_KEY);
    KeyIsNamed(value, NAME_KEY);
    var n := PRIMARY_KEY;
    var tail := NAME_KEY + [QUOTE] + [];
    var rest := FOR_KEY + [QUOTE] + tail;
    var body := value + [QUOTE] + rest;
    assert DuplicateMessage(value, NAME_KEY) == DUPLICATE + [QUOTE] + body;
    ContainsAcrossQuote(DUPLICATE, body, n);
    ContainsAcrossQuote(value, rest, n);
    ContainsAcrossQuote(FOR_KEY, tail, n);
    ContainsAcrossQuote(NAME_KEY, [], n);
    NoPrimaryWithoutY(DUPLICATE);
    NoPrimaryWithoutY(FOR_KEY);
    NoPrimaryWithoutY(NAME_KEY);
    NoPrimaryWithoutY([]);
  }

  lemma KeyIsNamed(value: string, key: string)
    ensures Contains(DuplicateMessage(value, key), key)
  {
    var head := DUPLICATE + [QUOTE] + value + [QUOTE] + FOR_KEY + [QUOTE];
    assert OccursAt(DuplicateMessage(value, key), key, |head|);
  }

  // The users table.

  datatype NewUser = NewUser(name: string, email: Option<string>, cell: Option<string>)

  predicate Deliverable(u: NewUser) {
    (u.email.Some? && u.email.value != "") || (u.cell.Some? && u.cell.value != "")
  }

  /** A new row has no password yet; its counter starts at zero. */
  function NewRow(u: NewUser, now: int): Row {
    Row(u.name, u.email, u.cell, "", "", Some(now), None, 0)
  }

  predicate NameTaken(t: Table, name: string) {
    exists id :: id in t && t[id].name == name
  }

  ghost predicate NamesUnique(t: Table) {
    forall a, b :: a in t && b in t && t[a].name == t[b].name ==> a == b
  }

  datatype Insertion = Inserted | Duplicate(msg: string)

  /** INSERT checks the primary key first, then the unique name. */
  function Insert(t: Table, id: Uid, u: NewUser, now: int): (Table, Insertion) {
    if id in t then (t, Duplicate(DuplicateMessage(id, PRIMARY_KEY)))
    else if NameTaken(t, u.name) then (t, Duplicate(DuplicateMessage(u.name, NAME_KEY)))
    else (t[id := NewRow(u, now)], Inserted)
  }

  datatype Added = Done | Refused(err: Err) | StillTrying

  /** The first of the drawn ids that is unused. */
  ghost predicate FirstFree(t: Table, ids: seq<Uid>, j: nat) {
    j < |ids| && ids[j] !in t && forall i :: 0 <= i < j ==> ids[i] in t
  }

  /** Everything AddUser can come to, given the ids it draws: it stores one row under the first
      unused id, or refuses and stores nothing, or is still trying when the ids run out. */
  ghost predicate AddOutcome(t: Table, u: NewUser, ids: seq<Uid>, now: int, t': Table, id: Uid, added: Added, inserts: nat) {
    if !Deliverable(u) then added == Refused(Undeliverable) && t' == t && inserts == 0
    else if exists j: nat :: FirstFree(t, ids, j) then
      var j: nat :| FirstFree(t, ids, j);
      if !NameTaken(t, u.name) then
        added == Done && inserts == j + 1 && id == ids[j] && t' == t[ids[j] := NewRow(u, now)]
      else if Contains(u.name, PRIMARY_KEY) then added == StillTrying && inserts == |ids| && t' == t
      else added == Refused(UserExists) && inserts == j + 1 && id == ids[j] && t' == t
    else added == StillTrying && inserts == |ids| && t' == t
  }

  lemma FirstFreeIsUnique(t: Table, ids: seq<Uid>, i: nat, j: nat)
    requires FirstFree(t, ids, i) && FirstFree(t, ids, j)
    ensures i == j
  {
  }

  /** Distinct ids outnumbering the table cannot all be taken. */
  lemma {:induction false} SomeIdIsFree(t: Table, ids: seq<Uid>)
    requires forall i, j :: 0 <= i < j < |ids| ==> ids[i] != ids[j]
    requires |ids| > |t|
    ensures exists j: nat :: FirstFree(t, ids, j) && j <= |t|
    decreases |ids|
  {
    if ids[0] !in t {
      assert FirstFree(t, ids, 0);
    } else {
      var t1, rest := t - {ids[0]}, ids[1..];
      assert t1.Keys == t.Keys - {ids[0]};
      assert |t1.Keys| == |t.Keys| - 1;
      assert |t1| == |t1.Keys| && |t| == |t.Keys|;
      SomeIdIsFree(t1, rest);
      var j: nat :| FirstFree(t1, rest, j) && j <= |t1|;
      forall i | 0 <= i < j + 1 ensures ids[i] in t {
        if i > 0 { assert rest[i - 1] in t1; }
      }
      assert ids[j + 1] == rest[j] && ids[j + 1] != ids[0];
      assert FirstFree(t, ids, j + 1);
    }
  }

  /** Termination. With distinct ids, more of them than there are users, AddUser comes to an end
      for a deliverable user if and only if it is not the case that the name is taken and
      contains "users.PRIMARY"; and when it ends it has sent at most one INSERT more than there
      are users. In the bad case no supply of ids is ever enough. */
  lemma AddUserEnds(t: Table, u: NewUser, ids: seq<Uid>, now: int, t': Table, id: Uid, added: Added, inserts: nat)
    requires Deliverable(u) && AddOutcome(t, u, ids, now, t', id, added, inserts)
    requires forall i, j :: 0 <= i < j < |ids| ==> ids[i] != ids[j]
    requires |ids| > |t|
    ensures !added.StillTrying? <==> !(NameTaken(t, u.name) && Contains(u.name, PRIMARY_KEY))
    ensures !added.StillTrying? ==> inserts <= |t| + 1
    ensures added == Done <==> !NameTaken(t, u.name)
    ensures added == Refused(UserExists) <==> NameTaken(t, u.name) && !Contains(u.name, PRIMARY_KEY)
  {
    SomeIdIsFree(t, ids);
    var j: nat :| FirstFree(t, ids, j) && j <= |t|;
    forall i: nat | FirstFree(t, ids, i) ensures i == j { FirstFreeIsUnique(t, ids, i, j); }
  }

  /** Exactly one row more, or the same table; ids and names stay unique. */
  lemma AddUserKeepsNamesUnique(t: Table, u: NewUser, ids: seq<Uid>, now: int, t': Table, id: Uid, added: Added, inserts: nat)
    requires NamesUnique(t) && AddOutcome(t, u, ids, now, t', id, added, inserts)
    ensures NamesUnique(t')
    ensures if added == Done then id !in t && t' == t[id := NewRow(u, now)] && |t'| == |t| + 1 else t' == t
  {
  }

  /** The user that was added: name, address and number as asked, no failures, and an empty
      password, which alone logs in until the first change or reset. */
  lemma AddedUser(t: Table, u: NewUser, ids: seq<Uid>, now: int, t': Table, id: Uid, added: Added, inserts: nat,
                  p: Password, later: int, max: uint8)
    requires AddOutcome(t, u, ids, now, t', id, added, inserts) && added == Done
    ensures id in ids && id !in t && id in t'
    ensures t'[id].name == u.name && t'[id].email == u.email && t'[id].cell == u.cell
    ensures t'[id].failureCount == 0 && t'[id].loginFailure == None && t'[id].loginSuccess == Some(now)
    ensures Login(t', id, p, later, max).1 == if p == "" then None else Some(BadUserOrPass)
  {
  }

  /** A user nobody could reach, without a mail address and without a number, is turned away
      before anything is tried, and nobody else is. */
  lemma UnreachableIsRefused(t: Table, u: NewUser, ids: seq<Uid>, now: int, t': Table, id: Uid, added: Added, inserts: nat)
    requires AddOutcome(t, u, ids, now, t', id, added, inserts)
    ensures added == Refused(Undeliverable) <==> u.email in {None, Some("")} && u.cell in {None, Some("")}
    ensures added == Refused(Undeliverable) ==> t' == t && inserts == 0
  {
  }

  /** The input that never ends: the second user to be called "users.PRIMARY". */
  lemma AddUserCanRetryForever(ids: seq<Uid>, now: int, t': Table, id: Uid, added: Added, inserts: nat)
    requires var u := NewUser(PRIMARY_KEY, Some("someone@example.com"), None);
             AddOutcome(map["taken" := NewRow(u, 0)], u, ids, now, t', id, added, inserts)
    ensures added == StillTrying && inserts == |ids|
  {
    var u := NewUser(PRIMARY_KEY, Some("someone@example.com"), None);
    var t: Table := map["taken" := NewRow(u, 0)];
    assert Deliverable(u);
    assert "taken" in t && t["taken"].name == u.name;
    assert OccursAt(u.name, PRIMARY_KEY, 0);
  }
}
