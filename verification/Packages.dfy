/** The uid map: "user:pkg" keys for every user, from the package list. */
module Packages {
  import opened Rules
  import opened EngineState

  const USER_SPAN := 100000

  /** A line of the package list: a name and, when its second column is a number, that number. */
  datatype PackageLine = PackageLine(pkg: string, raw: Option<nat>)

  function Digits(n: nat): (s: string)
    ensures s != "" && forall c | c in s :: '0' <= c <= '9'
    decreases n
  {
    var last := [(n % 10 + '0' as int) as char];
    if n < 10 then last else Digits(n / 10) + last
  }

  function UserKey(user: nat, pkg: string): string { Digits(user) + ":" + pkg }

  /** A number below 100000 is an app id, one key per user; a larger one already names its user. */
  function KeysFor(raw: nat, pkg: string, users: seq<nat>): seq<(string, Uid)> {
    if raw >= USER_SPAN then [(UserKey(raw / USER_SPAN, pkg), raw)]
    else seq(|users|, i requires 0 <= i < |users| => (UserKey(users[i], pkg), users[i] * USER_SPAN + raw))
  }

  /** A key is read back as the package name it was built from. */
  lemma PackageOfUserKey(user: nat, pkg: string)
    ensures PackageOf(UserKey(user, pkg)) == if pkg == "" then None else Some(pkg)
    ensures BareName(UserKey(user, pkg)) == pkg
  {
    ColonAfter(Digits(user), pkg);
    var key, i := UserKey(user, pkg), |Digits(user)|;
    assert key[i + 1..] == pkg;
  }

  /** Every key of a package carries that package's name, and its uid belongs to the key's user. */
  lemma KeysForSpec(raw: nat, pkg: string, users: seq<nat>, k: nat)
    requires k < |KeysFor(raw, pkg, users)|
    ensures exists user: nat ::
      && KeysFor(raw, pkg, users)[k].0 == UserKey(user, pkg)
      && KeysFor(raw, pkg, users)[k].1 / USER_SPAN == user
      && KeysFor(raw, pkg, users)[k].1 % USER_SPAN == raw % USER_SPAN
      && (user in users || raw / USER_SPAN == user)
  {
    if raw >= USER_SPAN {
      assert KeysFor(raw, pkg, users)[k].0 == UserKey(raw / USER_SPAN, pkg);
    } else {
      assert KeysFor(raw, pkg, users)[k].0 == UserKey(users[k], pkg);
      assert users[k] in users;
    }
  }

  lemma DecimalOneMore(s: string, c: char)
    requires AllDigits(s) && '0' <= c <= '9'
    ensures AllDigits(s + [c]) && Decimal(s + [c]) == 10 * Decimal(s) + (c as int - '0' as int)
  {
    assert (s + [c])[..|s|] == s;
  }

  /** The digits of a number are read back as that number. */
  lemma {:induction false} DigitsReadBack(n: nat)
    ensures AllDigits(Digits(n)) && Decimal(Digits(n)) == n
    decreases n
  {
    var c := (n % 10 + '0' as int) as char;
    if n < 10 {
      assert [c] == "" + [c];
      DecimalOneMore("", c);
    } else {
      DigitsReadBack(n / 10);
      DecimalOneMore(Digits(n / 10), c);
    }
  }

  /** Keys of different users or of different packages are different. */
  lemma UserKeysDiffer(user: nat, pkg: string, other: nat, otherPkg: string)
    ensures UserKey(user, pkg) == UserKey(other, otherPkg) <==> user == other && pkg == otherPkg
  {
    PackageOfUserKey(user, pkg);
    PackageOfUserKey(other, otherPkg);
    if UserKey(user, pkg) == UserKey(other, otherPkg) {
      ColonAfter(Digits(user), pkg);
      ColonAfter(Digits(other), otherPkg);
      assert UserKey(user, pkg)[..|Digits(user)|] == Digits(user);
      assert UserKey(other, otherPkg)[..|Digits(other)|] == Digits(other);
      DigitsReadBack(user);
      DigitsReadBack(other);
    }
  }

  /** Which keys a package gets: with an app id one for every user, whose uid is 100000 times the user plus
      the id; with a full uid the one of the user it belongs to. */
  lemma KeysForIff(raw: nat, pkg: string, users: seq<nat>, key: string, uid: Uid)
    ensures (key, uid) in KeysFor(raw, pkg, users) <==>
      if raw >= 100000 then key == UserKey(raw / 100000, pkg) && uid == raw
      else exists user | user in users :: key == UserKey(user, pkg) && uid == 100000 * user + raw
  {
    var keys := KeysFor(raw, pkg, users);
    if raw < 100000 {
      if k :| 0 <= k < |keys| && keys[k] == (key, uid) {
        assert users[k] in users;
      }
      if user :| user in users && key == UserKey(user, pkg) && uid == 100000 * user + raw {
        var k :| 0 <= k < |users| && users[k] == user;
        assert keys[k] == (key, uid);
      }
    }
  }

  /** The line yields the key, with this uid. */
  predicate Yields(line: PackageLine, users: seq<nat>, key: string, uid: Uid) {
    line.raw.Some? && (key, uid) in KeysFor(line.raw.value, line.pkg, users)
  }

  /** The uid was read for the key from the n-th line, and no later line yields the key. */
  ghost predicate LastFrom(lines: seq<PackageLine>, users: seq<nat>, key: string, uid: Uid, n: nat) {
    && n < |lines| && Yields(lines[n], users, key, uid)
    && forall m, other | n < m < |lines| :: !Yields(lines[m], users, key, other)
  }

  /** The uid is that of the last line that yields the key. */
  ghost predicate FromLine(lines: seq<PackageLine>, users: seq<nat>, key: string, uid: Uid) {
    exists n: nat :: LastFrom(lines, users, key, uid, n)
  }

  ghost predicate Covered(lines: seq<PackageLine>, users: seq<nat>, uids: map<string, Uid>) {
    forall n, key, uid | 0 <= n < |lines| && Yields(lines[n], users, key, uid) :: key in uids
  }

  /** One more line: its keys get its uids, every other key keeps the uid it has. */
  lemma OneMoreLine(lines: seq<PackageLine>, line: PackageLine, users: seq<nat>,
                    before: map<string, Uid>, uids: map<string, Uid>)
    requires (forall key | key in before :: FromLine(lines, users, key, before[key])) && Covered(lines, users, before)
    requires before.Keys <= uids.Keys
    requires forall key | key in uids ::
      Yields(line, users, key, uids[key])
      || (key in before && uids[key] == before[key] && forall other :: !Yields(line, users, key, other))
    requires forall key, uid | Yields(line, users, key, uid) :: key in uids
    ensures (forall key | key in uids :: FromLine(lines + [line], users, key, uids[key]))
    ensures Covered(lines + [line], users, uids)
  {
    hide Yields;
    var all := lines + [line];
    forall key | key in uids ensures FromLine(all, users, key, uids[key]) {
      if Yields(line, users, key, uids[key]) {
        assert LastFrom(all, users, key, uids[key], |lines|);
      } else {
        var n: nat :| LastFrom(lines, users, key, before[key], n);
        assert LastFrom(all, users, key, uids[key], n);
      }
    }
  }

  /** Builds the map line by line: every key that some line yields is there, with the uid of the last
      line that does. */
  method ResolveUids(lines: seq<PackageLine>, users: seq<nat>) returns (uids: map<string, Uid>)
    ensures forall key | key in uids :: FromLine(lines, users, key, uids[key])
    ensures forall n, key, uid | 0 <= n < |lines| && Yields(lines[n], users, key, uid) :: key in uids
    ensures (forall line | line in lines :: line.pkg != "") ==> forall key | key in uids :: PackageOf(key).Some?
  {
    uids := map[];
    for n := 0 to |lines|
      invariant forall key | key in uids :: FromLine(lines[..n], users, key, uids[key])
      invariant Covered(lines[..n], users, uids)
    {
      ghost var before := uids;
      uids := AddLine(lines[n], users, uids);
      OneMoreLine(lines[..n], lines[n], users, before, uids);
      assert lines[..n + 1] == lines[..n] + [lines[n]];
    }
    assert lines[..|lines|] == lines;
    forall key | key in uids && forall line | line in lines :: line.pkg != ""
      ensures PackageOf(key).Some?
    {
      KeysCarryNames(lines, users, key, uids[key]);
    }
  }

  /** The keys of one line, each replacing what the map had. */
  method AddLine(line: PackageLine, users: seq<nat>, before: map<string, Uid>) returns (uids: map<string, Uid>)
    ensures before.Keys <= uids.Keys
    ensures forall key | key in uids ::
      Yields(line, users, key, uids[key])
      || (key in before && uids[key] == before[key] && forall other :: !Yields(line, users, key, other))
    ensures forall key, uid | Yields(line, users, key, uid) :: key in uids
  {
    uids := before;
    if line.raw.None? {
      return;
    }
    var keys := KeysFor(line.raw.value, line.pkg, users);
    for k := 0 to |keys|
      invariant before.Keys <= uids.Keys
      invariant forall key | key in uids ::
        (key, uids[key]) in keys[..k]
        || (key in before && uids[key] == before[key] && forall other :: (key, other) !in keys[..k])
      invariant forall entry | entry in keys[..k] :: entry.0 in uids
    {
      uids := uids[keys[k].0 := keys[k].1];
      assert keys[..k + 1] == keys[..k] + [keys[k]];
    }
    assert keys[..|keys|] == keys;
  }

  lemma KeysCarryNames(lines: seq<PackageLine>, users: seq<nat>, key: string, uid: Uid)
    requires FromLine(lines, users, key, uid)
    requires forall line | line in lines :: line.pkg != ""
    ensures PackageOf(key).Some?
  {
    var n: nat :| LastFrom(lines, users, key, uid, n);
    var line := lines[n];
    var keys := KeysFor(line.raw.value, line.pkg, users);
    var k :| 0 <= k < |keys| && keys[k] == (key, uid);
    KeysForSpec(line.raw.value, line.pkg, users, k);
    var user: nat :| key == UserKey(user, line.pkg);
    PackageOfUserKey(user, line.pkg);
  }
}
