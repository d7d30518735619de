/**
 * Mailbox lists. An address field of a message is given either as one email
 * with an optional display name, or as an array whose elements are bare emails
 * or `email => name` pairs. Either form is normalised to an ordered list of
 * mailboxes keyed by email: a repeated email keeps the position where it first
 * appeared and the name it was given last, as an associative array assignment
 * `mailboxes[email] = name` does.
 */
module Addresses {
  import opened Wrappers

  datatype Address = Address(email: string, name: Option<string>)

  /** One element of an address array: a bare email, or an `email => name` pair. */
  datatype AddressEntry = Bare(email: string) | Named(email: string, name: string)

  /** An address field as the caller gave it. */
  datatype AddressInput =
    | Single(email: string, name: Option<string>)
    | Listed(entries: seq<AddressEntry>)

  function ToAddress(e: AddressEntry): (a: Address)
    ensures a.email == e.email
    ensures a.name.Some? <==> e.Named?
  {
    match e
    case Bare(email) => Address(email, None)
    case Named(email, name) => Address(email, Some(name))
  }

  /** No email occurs twice in the list. */
  predicate DistinctEmails(xs: seq<Address>)
  {
    forall i, j :: 0 <= i < j < |xs| ==> xs[i].email != xs[j].email
  }

  function Emails(xs: seq<Address>): set<string>
  {
    set a | a in xs :: a.email
  }

  function EntryEmails(es: seq<AddressEntry>): set<string>
  {
    set e | e in es :: e.email
  }

  /** The name given to `email` by the last entry that mentions it. */
  function NameFor(es: seq<AddressEntry>, email: string): Option<string>
    decreases |es|
  {
    if es == [] then None
    else if es[|es| - 1].email == email then ToAddress(es[|es| - 1]).name
    else NameFor(es[..|es| - 1], email)
  }

  /** The position of `email` in the list, if it is there. */
  function Find(xs: seq<Address>, email: string): (r: Option<nat>)
    ensures r.Some? ==> r.value < |xs| && xs[r.value].email == email
    ensures r.None? <==> email !in Emails(xs)
    decreases |xs|
  {
    if xs == [] then None
    else if xs[0].email == email then Some(0)
    else match Find(xs[1..], email)
      case Some(i) => assert xs[1..][i] == xs[i + 1]; Some(i + 1)
      case None => assert forall a :: a in xs ==> a == xs[0] || a in xs[1..]; None
  }

  /** `mailboxes[email] = name`: replace in place if the email is present, append otherwise. */
  function Put(acc: seq<Address>, a: Address): (r: seq<Address>)
    requires DistinctEmails(acc)
    ensures DistinctEmails(r)
    ensures Emails(r) == Emails(acc) + {a.email}
    ensures |acc| <= |r| <= |acc| + 1
    ensures forall i :: 0 <= i < |acc| ==> r[i] == (if acc[i].email == a.email then a else acc[i])
    ensures |r| == |acc| + 1 ==> r[|acc|] == a && a.email !in Emails(acc)
  {
    match Find(acc, a.email)
    case Some(i) =>
      var r := acc[i := a];
      assert forall x :: x in r ==> x == a || x in acc;
      forall j | 0 <= j < |acc| ensures acc[j].email in Emails(r) {
        assert r[j] in r;
      }
      r
    case None =>
      var r := acc + [a];
      assert forall x :: x in r ==> x == a || x in acc;
      r
  }

  /** The mailbox list of an address array, folded from the left. */
  function Collect(es: seq<AddressEntry>): (r: seq<Address>)
    ensures DistinctEmails(r)
    decreases |es|
  {
    if es == [] then [] else Put(Collect(es[..|es| - 1]), ToAddress(es[|es| - 1]))
  }

  /** The mailbox list holds exactly the emails the array mentions. */
  lemma {:induction false} CollectEmails(es: seq<AddressEntry>)
    ensures Emails(Collect(es)) == EntryEmails(es)
    decreases |es|
  {
    if es != [] {
      var init, last := es[..|es| - 1], es[|es| - 1];
      CollectEmails(init);
      SplitLast(es);
      EntryEmailsAppend(init, last);
    }
  }

  lemma SplitLast<T>(s: seq<T>)
    requires s != []
    ensures s == s[..|s| - 1] + [s[|s| - 1]]
  {
  }

  lemma EntryEmailsAppend(init: seq<AddressEntry>, last: AddressEntry)
    ensures EntryEmails(init + [last]) == EntryEmails(init) + {last.email}
  {
    var es := init + [last];
    assert forall e :: e in es <==> e in init || e == last;
  }

  /** Each mailbox carries the name that the last entry for its email gave it. */
  lemma {:induction false} CollectNames(es: seq<AddressEntry>)
    ensures forall i :: 0 <= i < |Collect(es)| ==> Collect(es)[i].name == NameFor(es, Collect(es)[i].email)
    decreases |es|
  {
    if es != [] {
      var init, last := es[..|es| - 1], es[|es| - 1];
      CollectNames(init);
    }
  }

  /** The mailbox list of an address field, whichever form it was given in. */
  function Normalize(input: AddressInput): (r: seq<Address>)
    ensures DistinctEmails(r)
  {
    match input
    case Single(email, name) => [Address(email, name)]
    case Listed(entries) => Collect(entries)
  }

  /** An entry whose email is new is appended as the last mailbox. */
  lemma CollectAppendsNew(init: seq<AddressEntry>, last: AddressEntry)
    requires last.email !in EntryEmails(init)
    ensures Collect(init + [last]) == Collect(init) + [ToAddress(last)]
  {
    var es := init + [last];
    assert es[..|es| - 1] == init;
    CollectEmails(init);
    assert Find(Collect(init), last.email).None?;
  }

  lemma LastIsNew(es: seq<AddressEntry>)
    requires es != []
    requires forall i, j :: 0 <= i < j < |es| ==> es[i].email != es[j].email
    ensures es[|es| - 1].email !in EntryEmails(es[..|es| - 1])
  {
    var init := es[..|es| - 1];
    forall e | e in init ensures e.email != es[|es| - 1].email {
      var k :| 0 <= k < |init| && init[k] == e;
      assert es[k] == e;
    }
  }

  lemma MapAppend(init: seq<AddressEntry>, last: AddressEntry)
    ensures seq(|init + [last]|, i requires 0 <= i < |init + [last]| => ToAddress((init + [last])[i]))
         == seq(|init|, i requires 0 <= i < |init| => ToAddress(init[i])) + [ToAddress(last)]
  {
  }

  /** When no email repeats, the array form keeps every entry, in order. */
  lemma {:induction false} CollectKeepsDistinctEntries(es: seq<AddressEntry>)
    requires forall i, j :: 0 <= i < j < |es| ==> es[i].email != es[j].email
    ensures Collect(es) == seq(|es|, i requires 0 <= i < |es| => ToAddress(es[i]))
    decreases |es|
  {
    if es != [] {
      var init, last := es[..|es| - 1], es[|es| - 1];
      CollectKeepsDistinctEntries(init);
      LastIsNew(es);
      SplitLast(es);
      CollectAppendsNew(init, last);
      MapAppend(init, last);
    }
  }

  /** The array entry equivalent to one email with an optional name. */
  function EntryOf(email: string, name: Option<string>): (e: AddressEntry)
    ensures ToAddress(e) == Address(email, name)
  {
    match name
    case None => Bare(email)
    case Some(n) => Named(email, n)
  }

  /** Giving one address as a string (with or without a name) or as a one-element array is the same. */
  lemma SingleFormsAgree(email: string, name: Option<string>)
    ensures Normalize(Single(email, name)) == Normalize(Listed([EntryOf(email, name)]))
  {
    var es := [EntryOf(email, name)];
    assert es[..0] == [];
    assert Collect(es) == Put([], Address(email, name));
  }
}
