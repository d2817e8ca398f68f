/**
 * The pure helpers of the home screen: the search filter over the user list,
 * the avatar initials and the avatar colour. Case mapping covers ASCII only.
 */
module HomeScreen {
  import opened Wrappers
  import opened UserEntity

  // ---------------------------------------------------------------------------
  // Case mapping (String.prototype.toLowerCase / toUpperCase on ASCII)

  function LowerChar(c: char): char
  {
    if 'A' <= c <= 'Z' then (c as int + 32) as char else c
  }

  function UpperChar(c: char): char
  {
    if 'a' <= c <= 'z' then (c as int - 32) as char else c
  }

  function Lower(s: string): (r: string)
    ensures |r| == |s| && forall i :: 0 <= i < |r| ==> !('A' <= r[i] <= 'Z')
    ensures forall i :: 0 <= i < |s| ==> UpperChar(r[i]) == UpperChar(s[i])
  {
    seq(|s|, i requires 0 <= i < |s| => LowerChar(s[i]))
  }

  function Upper(s: string): (r: string)
    ensures |r| == |s| && forall i :: 0 <= i < |r| ==> !('a' <= r[i] <= 'z')
    ensures forall i :: 0 <= i < |s| ==> LowerChar(r[i]) == LowerChar(s[i])
  {
    seq(|s|, i requires 0 <= i < |s| => UpperChar(s[i]))
  }

  // ---------------------------------------------------------------------------
  // Search filter

  /** `sub` occurs in `s` starting at index `i`. */
  predicate OccursAt(s: string, sub: string, i: int)
  {
    0 <= i && i + |sub| <= |s| && s[i..i + |sub|] == sub
  }

  /** String.prototype.includes: a scan that tries each start position in turn. */
  predicate Includes(s: string, sub: string)
    decreases |s|
  {
    sub <= s || (|s| > 0 && Includes(s[1..], sub))
  }

  /** `includes` holds exactly when the query occurs at some position; the empty query occurs everywhere. */
  lemma {:induction false} IncludesIffOccurs(s: string, sub: string)
    ensures Includes(s, sub) <==> exists i :: OccursAt(s, sub, i)
    decreases |s|
  {
    if sub <= s {
      assert OccursAt(s, sub, 0);
    } else if |s| == 0 {
      assert forall i :: !OccursAt(s, sub, i);
    } else {
      IncludesIffOccurs(s[1..], sub);
      if i :| OccursAt(s[1..], sub, i) {
        assert s[1..][i..i + |sub|] == s[i + 1..i + 1 + |sub|];
        assert OccursAt(s, sub, i + 1);
      }
      if i :| OccursAt(s, sub, i) {
        assert i != 0;
        assert s[i..i + |sub|] == s[1..][i - 1..i - 1 + |sub|];
        assert OccursAt(s[1..], sub, i - 1);
      }
    }
  }

  /** The filter's test: the lower-cased name or the lower-cased e-mail contains the lower-cased query. */
  predicate Matches(user: User, searchQuery: string)
  {
    var query := Lower(searchQuery);
    Includes(Lower(user.name), query) || Includes(Lower(user.email), query)
  }

  /** `a` is `b` with some elements dropped and the rest kept in order. */
  predicate IsSublist<T(==)>(a: seq<T>, b: seq<T>)
    decreases |b|
  {
    |a| == 0 || (|b| > 0 && ((a[0] == b[0] && IsSublist(a[1..], b[1..])) || IsSublist(a, b[1..])))
  }

  /**
   * `users.filter(...)` with the search query: an order-preserving sub-list
   * holding every matching user as often as `users` does, and nothing else.
   */
  function FilterUsers(users: seq<User>, searchQuery: string): (r: seq<User>)
    ensures IsSublist(r, users)
    ensures forall u :: u in r <==> u in users && Matches(u, searchQuery)
    ensures forall u :: multiset(r)[u] == if Matches(u, searchQuery) then multiset(users)[u] else 0
  {
    if |users| == 0 then []
    else
      var rest := FilterUsers(users[1..], searchQuery);
      assert users == [users[0]] + users[1..];
      if Matches(users[0], searchQuery) then [users[0]] + rest else rest
  }

  /** An empty search keeps every user, in order. */
  lemma {:induction false} EmptyQueryKeepsAll(users: seq<User>)
    ensures FilterUsers(users, "") == users
  {
    if |users| > 0 {
      assert Lower("") == "";
      assert Includes(Lower(users[0].name), "");
      assert Matches(users[0], "");
      assert FilterUsers(users, "") == [users[0]] + FilterUsers(users[1..], "");
      EmptyQueryKeepsAll(users[1..]);
      assert users == [users[0]] + users[1..];
    }
  }

  // ---------------------------------------------------------------------------
  // Initials

  /** `s.split(' ')`: the pieces between single spaces, empty pieces included. */
  function Split(s: string): (parts: seq<string>)
    ensures |parts| >= 1
    ensures forall p :: p in parts ==> ' ' !in p
  {
    if |s| == 0 then [""]
    else
      var rest := Split(s[1..]);
      if s[0] == ' ' then [""] + rest
      else [[s[0]] + rest[0]] + rest[1..]
  }

  /** `parts.join(' ')`. */
  function JoinWithSpaces(parts: seq<string>): string
  {
    if |parts| == 0 then ""
    else if |parts| == 1 then parts[0]
    else parts[0] + " " + JoinWithSpaces(parts[1..])
  }

  /** Splitting loses nothing: joining the pieces with spaces restores the string. */
  lemma {:induction false} SplitJoin(s: string)
    ensures JoinWithSpaces(Split(s)) == s
  {
    if |s| > 0 {
      var rest := Split(s[1..]);
      SplitJoin(s[1..]);
      if s[0] == ' ' {
        assert Split(s) == [""] + rest;
        assert JoinWithSpaces(Split(s)) == "" + " " + JoinWithSpaces(rest);
      } else if |rest| == 1 {
        assert Split(s) == [[s[0]] + rest[0]];
      } else {
        assert Split(s) == [[s[0]] + rest[0]] + rest[1..];
        assert JoinWithSpaces(rest) == rest[0] + " " + JoinWithSpaces(rest[1..]);
        assert JoinWithSpaces(Split(s)) == ([s[0]] + rest[0]) + " " + JoinWithSpaces(rest[1..]);
      }
    }
  }

  /** `.map(part => part[0]).join('')`: the first character of each piece; an empty piece gives undefined, which joins as "". */
  function Heads(parts: seq<string>): string
  {
    if |parts| == 0 then ""
    else (if |parts[0]| > 0 then [parts[0][0]] else "") + Heads(parts[1..])
  }

  /**
   * The characters that start a word of `s`, read directly off the string: a
   * non-space character at the start (when `afterSpace`) or right after a space.
   */
  function WordStarts(s: string, afterSpace: bool): string
  {
    if |s| == 0 then ""
    else (if afterSpace && s[0] != ' ' then [s[0]] else "") + WordStarts(s[1..], s[0] == ' ')
  }

  /** The heads of the split pieces are exactly the word starts, in order. */
  lemma {:induction false} HeadsOfSplit(s: string)
    ensures Heads(Split(s)) == WordStarts(s, true)
    ensures Heads(Split(s)[1..]) == WordStarts(s, false)
  {
    if |s| > 0 {
      var rest := Split(s[1..]);
      HeadsOfSplit(s[1..]);
      if s[0] == ' ' {
        assert Split(s) == [""] + rest;
        assert Split(s)[1..] == rest;
      } else {
        assert Split(s) == [[s[0]] + rest[0]] + rest[1..];
        assert Split(s)[1..] == rest[1..];
      }
    }
  }

  /**
   * `getInitials`: the word starts of the name, upper-cased, the first two
   * kept; spaces in a row add nothing.
   */
  function GetInitials(name: string): (r: string)
    ensures |r| <= 2
    ensures forall i :: 0 <= i < |r| ==> !('a' <= r[i] <= 'z')
    ensures var starts := WordStarts(name, true);
      |r| == (if |starts| < 2 then |starts| else 2)
      && forall i :: 0 <= i < |r| ==> r[i] == UpperChar(starts[i])
  {
    HeadsOfSplit(name);
    var joined := Upper(Heads(Split(name)));
    if |joined| <= 2 then joined else joined[..2]
  }

  // ---------------------------------------------------------------------------
  // Avatar colour

  const Colors: seq<string> := ["bg-indigo-500", "bg-emerald-500", "bg-violet-500", "bg-pink-500", "bg-amber-500", "bg-sky-500"]

  /** JavaScript's `%` on integers: the remainder carries the sign of the dividend. */
  function JsRemainder(a: int, b: int): (r: int)
    requires b > 0
    ensures -b < r < b
    ensures a >= 0 ==> r == a % b
    ensures a < 0 ==> r <= 0
  {
    if a >= 0 then a % b else -((-a) % b)
  }

  /**
   * `getRandomColor`: `colors[id % colors.length]`. A negative remainder
   * indexes past the array and reads undefined (`None`); -0 reads `colors[0]`.
   */
  function GetRandomColor(id: int): (r: Option<string>)
    ensures r.Some? ==> r.value in Colors
    ensures id >= 0 ==> r == Some(Colors[id % |Colors|])
    ensures id < 0 ==> r == (if id % |Colors| == 0 then Some(Colors[0]) else None)
  {
    var i := JsRemainder(id, |Colors|);
    if i >= 0 then Some(Colors[i]) else None
  }

  /** Non-negative ids that agree modulo the palette size get the same colour. */
  lemma SameResidueSameColor(a: int, b: int)
    requires a >= 0 && b >= 0 && a % |Colors| == b % |Colors|
    ensures GetRandomColor(a) == GetRandomColor(b)
  {
  }
}
