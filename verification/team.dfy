/**
  The team page (`src/pages/Team.jsx`): who may manage the team, which rows
  show a remove button, the list after a removal or an invitation, the
  three counters, and the invite dialog's checks, including its e-mail
  pattern `^[^\s@]+@[^\s@]+\.[^\s@]+$`. Ids are compared strictly here.
  White space is the ASCII set of `Text.IsSpace`.
*/
module Team {
  import opened Base
  import opened Seqs
  import opened Text
  import opened Entities
  import opened Forms

  /** `currentUser?.isTeamOwner || currentUser?.role === "ADMIN"`. */
  predicate CanInvite(currentUser: Option<User>) {
    currentUser.Some? && (currentUser.value.isTeamOwner || currentUser.value.role == Some("ADMIN"))
  }

  function CurrentOid(currentUser: Option<User>): Option<Key> {
    if currentUser.None? then None else currentUser.value.oid
  }

  /** The remove button of a row. */
  predicate ShowRemove(currentUser: Option<User>, row: User) {
    CanInvite(currentUser) && !row.isTeamOwner && row.oid != CurrentOid(currentUser)
  }

  /** No row offers to remove the team owner or the viewer themself. */
  lemma NeverRemoveSelfOrOwner(currentUser: User, row: User)
    ensures ShowRemove(Some(currentUser), row) ==> !row.isTeamOwner && row.oid != currentUser.oid
    ensures ShowRemove(Some(currentUser), currentUser) ==> false
    ensures !CanInvite(Some(currentUser)) ==> !ShowRemove(Some(currentUser), row)
  {
  }

  function NotId(userId: Option<Key>): User -> bool {
    (u: User) => u.oid != userId
  }

  datatype Removal = Refused(message: string) | Cancelled | Failed | Removed(users: seq<User>)

  /**
    `handleRemoveMember`: refused without the right, stopped by the
    confirmation or a failed request, otherwise every user with that `_id`
    leaves the list.
  */
  function RemoveMember(users: seq<User>, currentUser: Option<User>, userId: Option<Key>, confirmed: bool, deleted: bool): (r: Removal)
    ensures r.Refused? <==> !CanInvite(currentUser)
    ensures r.Refused? ==> r.message == "Only team owner or admins can remove members"
    ensures r.Removed? <==> CanInvite(currentUser) && confirmed && deleted
    ensures r.Removed? ==> (forall u :: u in r.users <==> u in users && u.oid != userId) && IsSubseq(r.users, users)
    ensures r.Removed? ==> forall u :: multiset(r.users)[u] == if u.oid == userId then 0 else multiset(users)[u]
  {
    if !CanInvite(currentUser) then Refused("Only team owner or admins can remove members")
    else if !confirmed then Cancelled
    else if !deleted then Failed
    else
      FilterKeepsOrder(users, NotId(userId));
      Removed(Filter(users, NotId(userId)))
  }

  /** Removing a row the button was shown for keeps the viewer in the list. */
  lemma RemovalKeepsViewer(users: seq<User>, currentUser: User, row: User)
    requires currentUser in users
    requires ShowRemove(Some(currentUser), row)
    ensures currentUser in RemoveMember(users, Some(currentUser), row.oid, true, true).users
    ensures row !in RemoveMember(users, Some(currentUser), row.oid, true, true).users
  {
  }

  /** `onInvited`: the new user joins at the end. */
  function Invited(users: seq<User>, newUser: User): (r: seq<User>)
    ensures |r| == |users| + 1 && r[..|users|] == users && r[|users|] == newUser
  {
    users + [newUser]
  }

  function RoleIs(role: string): User -> bool {
    (u: User) => u.role == Some(role)
  }

  datatype Counters = Counters(total: nat, admins: nat, members: nat)

  /** The three cards: all users, and those with role ADMIN and MEMBER. */
  function CountRoles(users: seq<User>): (r: Counters)
    ensures r.total == |users|
    ensures r.admins == Count(users, RoleIs("ADMIN")) && r.members == Count(users, RoleIs("MEMBER"))
    ensures r.admins + r.members <= r.total
  {
    var either := (u: User) => RoleIs("ADMIN")(u) || RoleIs("MEMBER")(u);
    CountDisjoint(users, RoleIs("ADMIN"), RoleIs("MEMBER"), either);
    Counters(|users|, Count(users, RoleIs("ADMIN")), Count(users, RoleIs("MEMBER")))
  }

  /** An invited user raises the total by one and exactly the counter of their role. */
  lemma InviteCounted(users: seq<User>, newUser: User)
    ensures CountRoles(Invited(users, newUser)).total == CountRoles(users).total + 1
    ensures CountRoles(Invited(users, newUser)).admins == CountRoles(users).admins + (if newUser.role == Some("ADMIN") then 1 else 0)
    ensures CountRoles(Invited(users, newUser)).members == CountRoles(users).members + (if newUser.role == Some("MEMBER") then 1 else 0)
  {
    CountAppend(users, [newUser], RoleIs("ADMIN"));
    CountAppend(users, [newUser], RoleIs("MEMBER"));
    assert [newUser][1..] == [];
  }

  // ---------------------------------------------------------------------------
  // The e-mail pattern

  /** `[^\s@]+` without the `+`: no white space and no '@'. */
  predicate Plain(s: string) {
    forall k :: 0 <= k < |s| ==> !IsSpace(s[k]) && s[k] != '@'
  }

  /**
    The pattern read as a regular expression: the whole text is a
    non-empty plain part, '@', a non-empty plain part, '.', and a non-empty
    plain part. The middle part may itself contain dots.
  */
  ghost predicate MatchesPattern(s: string) {
    exists i, j :: 0 < i && i + 1 < j && j + 1 < |s| && s[i] == '@' && s[j] == '.' &&
      Plain(s[..i]) && Plain(s[i + 1..j]) && Plain(s[j + 1..])
  }

  /** The position of the first `c` in `s`. */
  function Find(s: string, c: char): (r: Option<nat>)
    ensures r.None? <==> c !in s
    ensures r.Some? ==> r.value < |s| && s[r.value] == c && c !in s[..r.value]
    decreases |s|
  {
    if |s| == 0 then None
    else if s[0] == c then Some(0)
    else match Find(s[1..], c)
      case None => None
      case Some(k) =>
        assert s[..k + 1] == [s[0]] + s[1..][..k];
        Some(k + 1)
  }

  predicate NoSpace(s: string) {
    forall k :: 0 <= k < |s| ==> !IsSpace(s[k])
  }

  /** A dot with at least one character on each side. */
  predicate InnerDot(d: string) {
    |d| >= 3 && '.' in d[1..|d| - 1]
  }

  /** The test as a scan: no white space, one '@' not at the start, and a dot inside the rest. */
  predicate ValidEmail(s: string) {
    match Find(s, '@')
    case None => false
    case Some(i) => i > 0 && NoSpace(s) && '@' !in s[i + 1..] && InnerDot(s[i + 1..])
  }

  /** The scan accepts a text exactly when the pattern matches it. */
  lemma ValidEmailMatchesPattern(s: string)
    ensures ValidEmail(s) <==> MatchesPattern(s)
  {
    if ValidEmail(s) {
      ScanToPattern(s);
    }
    if MatchesPattern(s) {
      PatternToScan(s);
    }
  }

  lemma ScanToPattern(s: string)
    requires ValidEmail(s)
    ensures MatchesPattern(s)
  {
    var i := Find(s, '@').value;
    var d := s[i + 1..];
    var m := d[1..|d| - 1];
    var k :| 0 <= k < |m| && m[k] == '.';
    var j := i + 2 + k;
    assert s[j] == '.' by { assert d[k + 1] == m[k]; }
    var a, b, c := s[..i], s[i + 1..j], s[j + 1..];
    assert Plain(a) by {
      forall x | 0 <= x < |a| ensures !IsSpace(a[x]) && a[x] != '@' {
        assert a[x] == s[x];
        assert s[x] in s[..i];
      }
    }
    assert Plain(b) by {
      forall x | 0 <= x < |b| ensures !IsSpace(b[x]) && b[x] != '@' {
        assert b[x] == d[x];
        assert d[x] in d;
      }
    }
    assert Plain(c) by {
      forall x | 0 <= x < |c| ensures !IsSpace(c[x]) && c[x] != '@' {
        assert c[x] == d[j - i + x];
        assert d[j - i + x] in d;
      }
    }
  }

  /** An '@' with none before it is the one `Find` reports. */
  lemma FirstAt(s: string, i: int)
    requires 0 <= i < |s| && s[i] == '@' && Plain(s[..i])
    ensures Find(s, '@') == Some(i)
  {
    assert s[i] in s[..i + 1];
  }

  /** The pieces of a matching text, put back together. */
  lemma Pieces(s: string, i: int, j: int)
    requires 0 < i && i + 1 < j && j + 1 < |s| && s[i] == '@' && s[j] == '.'
    ensures s == s[..i] + "@" + s[i + 1..j] + "." + s[j + 1..]
    ensures s[i + 1..] == s[i + 1..j] + "." + s[j + 1..]
  {
    assert s == s[..i] + [s[i]] + s[i + 1..j] + [s[j]] + s[j + 1..];
  }

  /** Plain pieces and the two separators contain no white space, and nothing after the '@' is another '@'. */
  lemma JoinedPlain(a: string, b: string, c: string)
    requires Plain(a) && Plain(b) && Plain(c)
    ensures NoSpace(a + "@" + b + "." + c)
    ensures '@' !in b + "." + c
  {
    var s := a + "@" + b + "." + c;
    forall x | 0 <= x < |s| ensures !IsSpace(s[x]) {
      if x < |a| {
        assert s[x] == a[x];
      } else if |a| < x <= |a| + |b| {
        assert s[x] == b[x - |a| - 1];
      } else if x > |a| + |b| + 1 {
        assert s[x] == c[x - |a| - |b| - 2];
      }
    }
    var t := b + "." + c;
    forall x | 0 <= x < |t| ensures t[x] != '@' {
      if x < |b| {
        assert t[x] == b[x];
      } else if x > |b| {
        assert t[x] == c[x - |b| - 1];
      }
    }
  }

  /** A dot between two non-empty pieces lies strictly inside the domain. */
  lemma DotInside(b: string, c: string)
    requires |b| > 0 && |c| > 0
    ensures InnerDot(b + "." + c)
  {
    var d := b + "." + c;
    assert d[1..|d| - 1][|b| - 1] == d[|b|];
  }

  lemma PatternToScan(s: string)
    requires MatchesPattern(s)
    ensures ValidEmail(s)
  {
    var i, j :| 0 < i && i + 1 < j && j + 1 < |s| && s[i] == '@' && s[j] == '.' &&
      Plain(s[..i]) && Plain(s[i + 1..j]) && Plain(s[j + 1..]);
    var a, b, c := s[..i], s[i + 1..j], s[j + 1..];
    FirstAt(s, i);
    Pieces(s, i, j);
    JoinedPlain(a, b, c);
    DotInside(b, c);
    assert NoSpace(s) && '@' !in s[i + 1..] && InnerDot(s[i + 1..]);
  }

  /** Some texts on both sides of the pattern. */
  lemma EmailExamples()
    ensures ValidEmail("a@b.c")
    ensures !ValidEmail("a@b")
    ensures !ValidEmail("a@b@c.d")
    ensures !ValidEmail(" a@b.c")
  {
    assert Find("a@b.c", '@') == Some(1);
    assert "a@b.c"[2..][1..|"a@b.c"[2..]| - 1] == ".";
    assert Find("a@b", '@') == Some(1);
    assert Find("a@b@c.d", '@') == Some(1);
    assert "a@b@c.d"[2..][1] == '@';
    assert IsSpace(" a@b.c"[0]);
  }

  datatype Invite = Invite(name: string, email: string, role: string)

  /** The invite dialog opens with the role MEMBER. */
  const NewInvite: Invite := Invite("", "", "MEMBER")

  /** `handleSubmit` of the invite dialog: blank fields, then the pattern on the untrimmed e-mail. */
  function SubmitInvite(f: Invite): (r: Submit<Invite>)
    ensures r == Invalid("Name and email are required") <==> IsBlank(f.name) || IsBlank(f.email)
    ensures r == Invalid("Please enter a valid email address") <==> !IsBlank(f.name) && !IsBlank(f.email) && !MatchesPattern(f.email)
    ensures r.Send? <==> !IsBlank(f.name) && MatchesPattern(f.email)
    ensures r.Send? ==> r.payload == f
  {
    ValidEmailMatchesPattern(f.email);
    if IsBlank(f.name) || IsBlank(f.email) then Invalid("Name and email are required")
    else if !ValidEmail(f.email) then Invalid("Please enter a valid email address")
    else Send(f)
  }

  /** Trimming only guards emptiness: a padded address passes the first check and fails the pattern. */
  lemma PaddedEmailRejected()
    ensures SubmitInvite(Invite("Ann", " a@b.c", "MEMBER")) == Invalid("Please enter a valid email address")
  {
    EmailExamples();
    ValidEmailMatchesPattern(" a@b.c");
    assert !IsBlank(" a@b.c") by { assert !IsSpace(" a@b.c"[1]); }
    assert !IsBlank("Ann") by { assert !IsSpace("Ann"[0]); }
  }
}
