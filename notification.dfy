/** Whether a status-change email is due and whom it is addressed to. */
module Notification {
  import opened Seqs
  import opened Entities

  /** `Accounts_Send_Email_When_Activating` for an activation,
      `Accounts_Send_Email_When_Deactivating` for a deactivation. */
  predicate EmailDue(settings: EmailSettings, active: bool) {
    if active then settings.sendWhenActivating else settings.sendWhenDeactivating
  }

  /** `user.name || user.username` rendered in a template literal: a
      non-empty name, else the username, else `undefined`. */
  function DisplayName(u: User): string {
    if u.name.Some? && u.name.value != "" then u.name.value
    else if u.username.Some? then u.username.value
    else "undefined"
  }

  /** One `name<address>` entry per email address, in the record's order. */
  function Destinations(name: string, emails: seq<UserEmail>): seq<string>
    decreases |emails|
  {
    if emails == [] then []
    else [name + "<" + emails[0].address + ">"] + Destinations(name, emails[1..])
  }

  /** Each entry is the name with the address of the email at the same
      position. */
  lemma {:induction false} DestinationsEntries(name: string, emails: seq<UserEmail>)
    ensures var r := Destinations(name, emails);
      |r| == |emails| && forall i :: 0 <= i < |emails| ==> r[i] == name + "<" + emails[i].address + ">"
    decreases |emails|
  {
    if emails != [] {
      DestinationsEntries(name, emails[1..]);
      var r := Destinations(name, emails);
      forall i | 1 <= i < |emails| ensures r[i] == name + "<" + emails[i].address + ">" {
        assert r[i] == Destinations(name, emails[1..])[i - 1];
        assert emails[1..][i - 1] == emails[i];
      }
    }
  }

  /** The `to` field: `String(destinations)`, where `destinations` is `false`
      when the record has no emails array. */
  function EmailTo(u: User): string {
    match u.emails
    case None => "false"
    case Some(emails) => JoinCommas(Destinations(DisplayName(u), emails))
  }

  /** The `to` field lists every destination: cutting it at its commas gives
      back one `name<address>` entry per email, provided neither the name nor
      an address holds a comma. */
  lemma EmailToListsEveryAddress(u: User)
    requires u.emails.Some? && u.emails.value != []
    requires ',' !in DisplayName(u)
    requires forall i :: 0 <= i < |u.emails.value| ==> ',' !in u.emails.value[i].address
    ensures var parts := SplitCommas(EmailTo(u));
      |parts| == |u.emails.value| &&
      forall i :: 0 <= i < |parts| ==> parts[i] == DisplayName(u) + "<" + u.emails.value[i].address + ">"
  {
    var name, emails := DisplayName(u), u.emails.value;
    var ds := Destinations(name, emails);
    DestinationsEntries(name, emails);
    forall i | 0 <= i < |ds| ensures ',' !in ds[i] {
      assert ds[i] == name + "<" + emails[i].address + ">";
    }
    SplitJoinCommas(ds);
  }
}
