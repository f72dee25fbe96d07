/** The User schema: normalisation by the `trim`/`lowercase` setters, the
    validators `save()` runs, and the e-mail pattern `/.+@.+\..+/`. */
module UserModel {
  import opened JsValues
  import opened JsString
  import opened ObjectIds

  const MIN_USERNAME_LENGTH: nat := 3
  const MIN_PASSWORD_LENGTH: nat := 6

  /** A saved user; `password` holds what the pre-save hook stored, the hash. */
  datatype User = User(id: ObjectId, username: string, email: string, password: string)

  /** The `username` setter (`trim`). */
  function NormalizeUsername(u: string): string {
    Trim(u)
  }

  /** The `email` setters (`trim`, then `lowercase`). */
  function NormalizeEmail(e: string): string {
    LowerAscii(Trim(e))
  }

  /** A normalised username is trimmed, so normalising it again changes nothing. */
  lemma NormalizeUsernameIdempotent(u: string)
    ensures Trim(NormalizeUsername(u)) == NormalizeUsername(u)
    ensures NormalizeUsername(NormalizeUsername(u)) == NormalizeUsername(u)
  {
    TrimIdempotent(u);
  }

  /** A normalised e-mail is trimmed and lower-case, so normalising it again
      changes nothing: a query by a stored address finds it. */
  lemma NormalizeEmailIdempotent(e: string)
    ensures Trim(NormalizeEmail(e)) == NormalizeEmail(e)
    ensures LowerAscii(NormalizeEmail(e)) == NormalizeEmail(e)
    ensures NormalizeEmail(NormalizeEmail(e)) == NormalizeEmail(e)
  {
    var t := Trim(e);
    TrimIdempotent(e);
    TrimLowerCommute(t);
    LowerAsciiIdempotent(t);
  }

  /** `.` in a regular expression without the `s` flag: any character but a line terminator. */
  predicate Dot(c: char) {
    !IsLineTerminator(c)
  }

  /** `s[a..b]` consists of `.`-characters. */
  ghost predicate DotRun(s: string, a: int, b: int) {
    0 <= a && b <= |s| && forall k :: a <= k < b ==> Dot(s[k])
  }

  /** The unanchored `/.+@.+\..+/` matches `s`: some `@` has a `.`-character before
      it, then at least one `.`-character, a `'.'`, and one more `.`-character,
      all on one line. */
  ghost predicate MatchesEmailPattern(s: string) {
    exists p, q :: 1 <= p && p + 1 < q && q + 1 < |s| && s[p] == '@' && s[q] == '.' && DotRun(s, p - 1, q + 2)
  }

  /** What a matcher has seen after reading the first `i` characters: the pattern
      parts `.+`, `.+@`, `.+@.+`, `.+@.+\.` ending at position `i`, and a whole match. */
  datatype ScanState = ScanState(x: bool, at: bool, y: bool, dot: bool, matched: bool)

  const SCAN_START: ScanState := ScanState(false, false, false, false, false)

  /** One character of the matcher: a line terminator abandons every partial match. */
  function ScanStep(st: ScanState, c: char): ScanState {
    if !Dot(c) then ScanState(false, false, false, false, st.matched)
    else ScanState(true, st.at || (c == '@' && st.x), st.at, st.dot || (c == '.' && st.y), st.matched || st.dot)
  }

  function ScanPrefix(s: string, i: nat): ScanState
    requires i <= |s|
  {
    if i == 0 then SCAN_START else ScanStep(ScanPrefix(s, i - 1), s[i - 1])
  }

  /** The `match` validator of `email`: one left-to-right pass over the string. */
  function EmailPattern(s: string): bool {
    ScanPrefix(s, |s|).matched
  }

  ghost predicate SawX(s: string, i: int) {
    1 <= i <= |s| && Dot(s[i - 1])
  }

  ghost predicate SawAt(s: string, i: int) {
    i <= |s| && exists p :: 1 <= p < i && s[p] == '@' && DotRun(s, p - 1, i)
  }

  ghost predicate SawY(s: string, i: int) {
    i <= |s| && exists p :: 1 <= p && p + 1 < i && s[p] == '@' && DotRun(s, p - 1, i)
  }

  ghost predicate SawDot(s: string, i: int) {
    i <= |s| && exists p, q :: 1 <= p && p + 1 < q < i && s[p] == '@' && s[q] == '.' && DotRun(s, p - 1, i)
  }

  ghost predicate Matched(s: string, i: int) {
    i <= |s| && exists p, q :: 1 <= p && p + 1 < q && q + 1 < i && s[p] == '@' && s[q] == '.' && DotRun(s, p - 1, q + 2)
  }

  lemma StepAt(s: string, i: nat)
    requires i < |s|
    ensures SawAt(s, i + 1) <==> Dot(s[i]) && (SawAt(s, i) || (s[i] == '@' && SawX(s, i)))
  {
    if SawAt(s, i + 1) {
      var p :| 1 <= p < i + 1 && s[p] == '@' && DotRun(s, p - 1, i + 1);
      assert Dot(s[i]);
      if p < i {
        assert DotRun(s, p - 1, i);
      } else {
        assert Dot(s[i - 1]);
      }
    }
    if Dot(s[i]) && SawAt(s, i) {
      var p :| 1 <= p < i && s[p] == '@' && DotRun(s, p - 1, i);
      assert DotRun(s, p - 1, i + 1);
    }
    if Dot(s[i]) && s[i] == '@' && SawX(s, i) {
      assert DotRun(s, i - 1, i + 1);
    }
  }

  lemma StepY(s: string, i: nat)
    requires i < |s|
    ensures SawY(s, i + 1) <==> Dot(s[i]) && SawAt(s, i)
  {
    if SawY(s, i + 1) {
      var p :| 1 <= p && p + 1 < i + 1 && s[p] == '@' && DotRun(s, p - 1, i + 1);
      assert Dot(s[i]);
      assert DotRun(s, p - 1, i);
    }
    if Dot(s[i]) && SawAt(s, i) {
      var p :| 1 <= p < i && s[p] == '@' && DotRun(s, p - 1, i);
      assert DotRun(s, p - 1, i + 1);
    }
  }

  lemma StepDot(s: string, i: nat)
    requires i < |s|
    ensures SawDot(s, i + 1) <==> Dot(s[i]) && (SawDot(s, i) || (s[i] == '.' && SawY(s, i)))
  {
    if SawDot(s, i + 1) {
      var p, q :| 1 <= p && p + 1 < q < i + 1 && s[p] == '@' && s[q] == '.' && DotRun(s, p - 1, i + 1);
      assert Dot(s[i]);
      assert DotRun(s, p - 1, i);
      if q == i {
        assert SawY(s, i);
      }
    }
    if Dot(s[i]) && SawDot(s, i) {
      var p, q :| 1 <= p && p + 1 < q < i && s[p] == '@' && s[q] == '.' && DotRun(s, p - 1, i);
      assert DotRun(s, p - 1, i + 1);
    }
    if Dot(s[i]) && s[i] == '.' && SawY(s, i) {
      var p :| 1 <= p && p + 1 < i && s[p] == '@' && DotRun(s, p - 1, i);
      assert DotRun(s, p - 1, i + 1);
    }
  }

  lemma StepMatched(s: string, i: nat)
    requires i < |s|
    ensures Matched(s, i + 1) <==> Matched(s, i) || (Dot(s[i]) && SawDot(s, i))
  {
    if Matched(s, i + 1) && !Matched(s, i) {
      NewMatch(s, i);
    }
    if Dot(s[i]) && SawDot(s, i) {
      MatchCompleted(s, i);
    }
  }

  /** A match that ends at `i + 1` and not before uses `s[i]` as its last character. */
  lemma NewMatch(s: string, i: nat)
    requires i < |s| && Matched(s, i + 1) && !Matched(s, i)
    ensures Dot(s[i]) && SawDot(s, i)
  {
    var p, q :| 1 <= p && p + 1 < q && q + 1 < i + 1 && s[p] == '@' && s[q] == '.' && DotRun(s, p - 1, q + 2);
    assert q + 1 == i;
    assert DotRun(s, p - 1, i);
    assert Dot(s[i]);
  }

  /** One more `.`-character after `.+@.+\.` completes a match. */
  lemma MatchCompleted(s: string, i: nat)
    requires i < |s| && Dot(s[i]) && SawDot(s, i)
    ensures Matched(s, i + 1)
  {
    var p, q :| 1 <= p && p + 1 < q < i && s[p] == '@' && s[q] == '.' && DotRun(s, p - 1, i);
    assert DotRun(s, p - 1, q + 2);
  }

  /** What has been seen after `i` characters, as a matcher state. */
  ghost function Seen(s: string, i: nat): ScanState {
    ScanState(SawX(s, i), SawAt(s, i), SawY(s, i), SawDot(s, i), Matched(s, i))
  }

  /** One step of the matcher turns what was seen before a character into what
      is seen after it. */
  lemma StepCorrect(s: string, i: nat)
    requires i < |s|
    ensures ScanStep(Seen(s, i), s[i]) == Seen(s, i + 1)
  {
    StepAt(s, i);
    StepY(s, i);
    StepDot(s, i);
    StepMatched(s, i);
    if !Dot(s[i]) {
      assert !SawX(s, i + 1);
    }
  }

  /** The inductive step of `ScanCorrect`. */
  lemma ScanOneMore(s: string, i: nat)
    requires 0 < i <= |s| && ScanPrefix(s, i - 1) == Seen(s, i - 1)
    ensures ScanPrefix(s, i) == Seen(s, i)
  {
    StepCorrect(s, i - 1);
  }

  /** After `i` characters the matcher's state is exactly what has been seen. */
  lemma {:induction false} ScanCorrect(s: string, i: nat)
    requires i <= |s|
    ensures ScanPrefix(s, i) == Seen(s, i)
  {
    if i == 0 {
      assert !SawAt(s, 0) && !SawY(s, 0) && !SawDot(s, 0) && !Matched(s, 0);
    } else {
      ScanCorrect(s, i - 1);
      ScanOneMore(s, i);
    }
  }

  /** The one-pass matcher accepts exactly the strings the regular expression matches. */
  lemma EmailPatternCorrect(s: string)
    ensures EmailPattern(s) <==> MatchesEmailPattern(s)
  {
    ScanCorrect(s, |s|);
  }

  /** The validators of the three paths, applied to the normalised values
      (`required` rejects the empty string). */
  predicate UsernameValid(username: string) {
    username != "" && |username| >= MIN_USERNAME_LENGTH
  }

  predicate EmailValid(email: string) {
    email != "" && EmailPattern(email)
  }

  predicate PasswordValid(password: string) {
    password != "" && |password| >= MIN_PASSWORD_LENGTH
  }

  /** Whether `save()` accepts a new user built from these request values. */
  predicate UserValid(username: string, email: string, password: string) {
    UsernameValid(NormalizeUsername(username)) && EmailValid(NormalizeEmail(email)) && PasswordValid(password)
  }

  /** No two users share a username or an e-mail, and ids are distinct (the
      unique indexes and `_id`). */
  ghost predicate UniqueAccounts(users: seq<User>) {
    forall i, j :: 0 <= i < j < |users| ==>
      users[i].id != users[j].id && users[i].username != users[j].username && users[i].email != users[j].email
  }

  /** A user as `save()` leaves it: the setters have run and the validators passed. */
  ghost predicate StoredUser(u: User) {
    && NormalizeUsername(u.username) == u.username && UsernameValid(u.username)
    && NormalizeEmail(u.email) == u.email && EmailValid(u.email)
  }

  /** The users collection: every document stored, no duplicate key. */
  ghost predicate UsersValid(users: seq<User>) {
    UniqueAccounts(users) && forall i :: 0 <= i < |users| ==> StoredUser(users[i])
  }

  /** Appending a stored user whose id, username and e-mail are all unused keeps
      the collection valid. */
  lemma AppendUser(users: seq<User>, u: User)
    requires StoredUser(u)
    requires !Taken(users, ById, u.id) && !Taken(users, ByUsername, u.username) && !Taken(users, ByEmail, u.email)
    ensures UsersValid(users) ==> UsersValid(users + [u])
  {
    if UsersValid(users) {
      var all := users + [u];
      assert all[|users|] == u;
      assert forall i :: 0 <= i < |users| ==> all[i] == users[i];
      forall i, j | 0 <= i < j < |all|
        ensures all[i].id != all[j].id && all[i].username != all[j].username && all[i].email != all[j].email
      {
        if j == |users| {
          assert KeyOf(users[i], ById) != u.id && KeyOf(users[i], ByUsername) != u.username && KeyOf(users[i], ByEmail) != u.email;
        }
      }
    }
  }

  /** The query keys of the collection. */
  datatype Key = ById | ByUsername | ByEmail

  function KeyOf(u: User, key: Key): string {
    match key
    case ById => u.id
    case ByUsername => u.username
    case ByEmail => u.email
  }

  /** Some user has `value` under `key`. */
  ghost predicate Taken(users: seq<User>, key: Key, value: string) {
    exists i :: 0 <= i < |users| && KeyOf(users[i], key) == value
  }

  /** `findOne({ key: value })` (and `findById`) over the collection in insertion
      order: the index of the first user whose `key` is `value`. */
  function FindFirst(users: seq<User>, key: Key, value: string): (r: Option<nat>)
    ensures r.Some? ==> r.value < |users| && KeyOf(users[r.value], key) == value
    ensures r.Some? ==> forall j :: 0 <= j < r.value ==> KeyOf(users[j], key) != value
    ensures r.None? <==> !Taken(users, key, value)
  {
    if users == [] then None
    else if KeyOf(users[0], key) == value then Some(0)
    else
      match FindFirst(users[1..], key, value)
      case None => None
      case Some(i) => Some(i + 1)
  }

  /** A query by an appended user's key, unused before, finds that user. */
  lemma FindAfterAppend(users: seq<User>, u: User, key: Key, value: string)
    requires !Taken(users, key, value) && KeyOf(u, key) == value
    ensures FindFirst(users + [u], key, value) == Some(|users|)
  {
    var all := users + [u];
    assert KeyOf(all[|users|], key) == value;
    assert forall i :: 0 <= i < |users| ==> all[i] == users[i];
  }

  /** In a collection without duplicate keys, a query by a user's own id,
      username or e-mail finds that user. */
  lemma FindUnique(users: seq<User>, i: nat)
    requires UniqueAccounts(users) && i < |users|
    ensures FindFirst(users, ById, users[i].id) == Some(i)
    ensures FindFirst(users, ByUsername, users[i].username) == Some(i)
    ensures FindFirst(users, ByEmail, users[i].email) == Some(i)
  {
    var a := FindFirst(users, ById, users[i].id);
    var b := FindFirst(users, ByUsername, users[i].username);
    var c := FindFirst(users, ByEmail, users[i].email);
    assert KeyOf(users[i], ById) == users[i].id && KeyOf(users[i], ByUsername) == users[i].username && KeyOf(users[i], ByEmail) == users[i].email;
  }

  /** Two e-mail addresses that match the pattern, one with and one without a line break. */
  lemma EmailPatternExamples()
    ensures EmailPattern("a@b.c")
    ensures !EmailPattern("a@b\n.c")
    ensures !EmailPattern("@b.c")
    ensures EmailPattern("x\nab@cd.ef")
  {
    EmailPatternCorrect("a@b.c");
    EmailPatternCorrect("a@b\n.c");
    EmailPatternCorrect("@b.c");
    EmailPatternCorrect("x\nab@cd.ef");
    assert MatchesEmailPattern("a@b.c") by {
      var s := "a@b.c";
      assert s[1] == '@' && s[3] == '.';
      assert DotRun(s, 0, 5);
    }
    assert !MatchesEmailPattern("a@b\n.c") by {
      var s := "a@b\n.c";
      forall p, q | 1 <= p && p + 1 < q && q + 1 < |s| && s[p] == '@' && s[q] == '.'
        ensures !DotRun(s, p - 1, q + 2)
      {
        assert p == 1 && q == 4;
        assert !Dot(s[3]);
      }
    }
    assert MatchesEmailPattern("x\nab@cd.ef") by {
      var s := "x\nab@cd.ef";
      assert s[4] == '@' && s[7] == '.';
      assert DotRun(s, 3, 9);
    }
  }
}
