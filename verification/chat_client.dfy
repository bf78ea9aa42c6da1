/**
 * The chat page's own logic: the avatar colour and initials shown for a
 * user, the identity of a direct channel between two users, the title of a
 * channel in the list, the contact list, and the two pieces of page state the
 * "new message" flow changes. The chat service itself (connecting, watching a
 * channel) is reduced to the outcome of its calls.
 */
module ChatClient {
  import opened Common
  import opened Utf16
  import opened Seqs
  import ChatUtils

  // ---------------------------------------------------------------------
  // Avatar colour
  // ---------------------------------------------------------------------

  const AVATAR_COLORS: seq<string> :=
    ["#3b82f6", "#8b5cf6", "#06b6d4", "#10b981", "#f59e0b", "#ef4444", "#ec4899", "#84cc16"]

  /** Sum of a string's code units (`split('')` then `charCodeAt(0)` of each piece). */
  function UnitSum(units: seq<CodeUnit>): nat
  {
    if units == [] then 0 else UnitSum(units[..|units| - 1]) + units[|units| - 1]
  }

  /** `getAvatarColor`: one of the eight colours, picked by the code-unit sum modulo 8. */
  function AvatarColor(userId: string): (c: string)
    ensures c in AVATAR_COLORS
  {
    AVATAR_COLORS[UnitSum(Encode(userId)) % |AVATAR_COLORS|]
  }

  lemma {:induction false} UnitSumAppend(a: seq<CodeUnit>, b: seq<CodeUnit>)
    ensures UnitSum(a + b) == UnitSum(a) + UnitSum(b)
    decreases |b|
  {
    if b == [] {
      assert a + b == a;
    } else {
      assert (a + b)[..|a + b| - 1] == a + b[..|b| - 1];
      UnitSumAppend(a, b[..|b| - 1]);
    }
  }

  /** The colour only depends on the code units' sum, so swapping two parts of an id keeps it. */
  lemma AvatarColorSwapParts(a: string, b: string)
    ensures AvatarColor(a + b) == AvatarColor(b + a)
  {
    EncodeAppend(a, b);
    EncodeAppend(b, a);
    UnitSumAppend(Encode(a), Encode(b));
    UnitSumAppend(Encode(b), Encode(a));
    assert UnitSum(Encode(a + b)) == UnitSum(Encode(b + a));
  }

  // ---------------------------------------------------------------------
  // Initials
  // ---------------------------------------------------------------------

  /** `toUpperCase` on one code unit, for the ASCII letters a to z; other units are kept. */
  function Upper(u: CodeUnit): CodeUnit
  {
    if 'a' as int <= u <= 'z' as int then u - 32 else u
  }

  /** `word.charAt(0)` for every word, joined: the first code unit of each non-empty word. */
  function FirstUnits(words: seq<string>): (r: seq<CodeUnit>)
    ensures |r| <= |words|
  {
    if words == [] then []
    else
      var e := Encode(words[0]);
      (if e == [] then [] else [e[0]]) + FirstUnits(words[1..])
  }

  /** `toUpperCase` on every unit. */
  function UpperAll(units: seq<CodeUnit>): (r: seq<CodeUnit>)
    ensures |r| == |units| && forall i :: 0 <= i < |units| ==> r[i] == Upper(units[i])
  {
    if units == [] then [] else [Upper(units[0])] + UpperAll(units[1..])
  }

  /** `getInitials`: the first code units of the space-separated words, upper-cased, at most two. */
  function Initials(name: string): (r: seq<CodeUnit>)
    ensures |r| <= 2
  {
    var upper := UpperAll(FirstUnits(Split(name, ' ')));
    if |upper| <= 2 then upper else upper[..2]
  }

  /**
   * For every name: the initials are the upper-cased first code units of the
   * first two non-empty pieces of the split on ' ' (an empty piece, from a
   * leading, trailing or doubled space, gives no unit), and there are as many
   * as there are such pieces, at most two.
   */
  lemma InitialsOfAnyName(name: string)
    ensures var words := Filter(Split(name, ' '), (w: string) => w != "");
      var r := Initials(name);
      && |r| == (if |words| < 2 then |words| else 2)
      && forall i :: 0 <= i < |r| ==> r[i] == Upper(Encode(words[i])[0])
  {
    FirstUnitsOfNonEmpty(Split(name, ' '));
  }

  /** `charAt(0)` of each piece keeps one unit per non-empty piece, in order. */
  lemma {:induction false} FirstUnitsOfNonEmpty(words: seq<string>)
    ensures var ne := Filter(words, (w: string) => w != "");
      && |FirstUnits(words)| == |ne|
      && forall i :: 0 <= i < |ne| ==> FirstUnits(words)[i] == Encode(ne[i])[0]
  {
    if words != [] {
      var first, rest := words[0], words[1..];
      FirstUnitsOfNonEmpty(rest);
      var ne, ne' := Filter(words, (w: string) => w != ""), Filter(rest, (w: string) => w != "");
      var f, f' := FirstUnits(words), FirstUnits(rest);
      if first == "" {
        assert ne == ne' && f == f';
      } else {
        var e := Encode(first);
        assert e == EncodeChar(first[0]) + Encode(first[1..]);
        assert ne == [first] + ne';
        assert f == [e[0]] + f';
        forall i | 0 <= i < |ne|
          ensures f[i] == Encode(ne[i])[0]
        {
          if i > 0 {
            assert ne[i] == ne'[i - 1] && f[i] == f'[i - 1];
          }
        }
      }
    }
  }

  /** A two-word name gives the upper-cased first unit of each word, in order. */
  lemma InitialsOfTwoWords(first: string, last: string)
    requires first != [] && last != [] && ' ' !in first && ' ' !in last
    ensures Initials(first + " " + last) == [Upper(Encode(first)[0]), Upper(Encode(last)[0])]
  {
    SplitTwoWords(first, last);
    FirstUnitsOfTwo(first, last);
    var upper := UpperAll([Encode(first)[0], Encode(last)[0]]);
    assert upper == [Upper(Encode(first)[0]), Upper(Encode(last)[0])];
  }

  lemma FirstUnitsOfTwo(first: string, last: string)
    requires first != [] && last != []
    ensures FirstUnits([first, last]) == [Encode(first)[0], Encode(last)[0]]
  {
    assert FirstUnits([last]) == [Encode(last)[0]] by {
      assert [last][1..] == [];
    }
    assert [first, last][1..] == [last];
  }

  lemma SplitTwoWords(first: string, last: string)
    requires ' ' !in first && ' ' !in last
    ensures Split(first + " " + last, ' ') == [first, last]
  {
    var name := first + " " + last;
    var k := IndexOf(name, ' ');
    assert name[|first|] == ' ';
    assert name[..|first|] == first;
    assert ' ' !in name[..|first|];
    assert ' ' in name[..|first| + 1];
    assert k == |first|;
    assert name[k + 1..] == last;
  }

  // ---------------------------------------------------------------------
  // Direct channels
  // ---------------------------------------------------------------------

  /** `[a, b].sort()`: code-unit order, a stable sort leaving equal strings as they are. */
  function SortedPair(a: string, b: string): (r: seq<string>)
    ensures |r| == 2 && multiset(r) == multiset{a, b}
  {
    if LexLess(Encode(b), Encode(a)) then [b, a] else [a, b]
  }

  /** The id of the direct channel between two users: the hash of the sorted ids joined with '-'. */
  function ChannelId(a: string, b: string): string
  {
    ChatUtils.ShortId(Join(SortedPair(a, b), "-"))
  }

  /** Both users derive the same channel, whichever of them starts the conversation. */
  lemma ChannelIdSymmetric(a: string, b: string)
    ensures SortedPair(a, b) == SortedPair(b, a)
    ensures ChannelId(a, b) == ChannelId(b, a)
  {
    if a != b {
      if Encode(a) == Encode(b) {
        EncodeInjective(a, b);
      }
      LexTotal(Encode(a), Encode(b));
    }
  }

  /** A user of the contact list, as the user route returns it. */
  datatype ApiUser = ApiUser(id: string, name: string)

  /** The channel the page opens: its id, its member list and its name. */
  datatype DirectChannel = DirectChannel(id: string, members: seq<string>, name: string)

  /** A member of a channel: the user id and, when the user is known, the user's name. */
  datatype Member = Member(userId: string, name: Option<string>)

  /**
   * The page's state for the signed-in user `userId`/`userName`: the open
   * channel, whether the "new message" panel shows, the contact list, whether
   * it is still loading, and the alerts raised so far.
   */
  class ChatPage {
    const userId: string
    const userName: string
    var channel: Option<DirectChannel>
    var showNewMessage: bool
    var apiUsers: seq<ApiUser>
    var loadingUsers: bool
    var alerts: seq<string>

    constructor (userId: string, userName: string)
      ensures this.userId == userId && this.userName == userName
      ensures channel.None? && !showNewMessage && apiUsers == [] && loadingUsers && alerts == []
    {
      this.userId := userId;
      this.userName := userName;
      channel := None;
      showNewMessage := false;
      apiUsers := [];
      loadingUsers := true;
      alerts := [];
    }

    /**
     * `createDirectChannel`. `connected` says whether the chat client exists;
     * `watchOk` is the outcome of watching the new channel.
     */
    method CreateDirectChannel(connected: bool, target: ApiUser, watchOk: bool)
      modifies this
      ensures !connected ==> channel == old(channel) && showNewMessage == old(showNewMessage) && alerts == old(alerts)
      ensures connected && target.id == userId ==>
        channel == old(channel) && showNewMessage == old(showNewMessage)
        && alerts == old(alerts) + ["You cannot start a direct chat with yourself."]
      ensures connected && target.id != userId && watchOk ==>
        && channel == Some(DirectChannel(ChannelId(userId, target.id), SortedPair(userId, target.id),
                                         userName + " & " + target.name))
        && !showNewMessage && alerts == old(alerts)
      ensures connected && target.id != userId && !watchOk ==>
        channel == old(channel) && showNewMessage == old(showNewMessage)
        && alerts == old(alerts) + ["Failed to start chat with " + target.name + ". Check console for details."]
      ensures apiUsers == old(apiUsers) && loadingUsers == old(loadingUsers)
    {
      if !connected {
        return;
      }
      if target.id == userId {
        alerts := alerts + ["You cannot start a direct chat with yourself."];
        return;
      }
      var members := [userId, target.id];
      if LexLess(Encode(members[1]), Encode(members[0])) {
        members := [members[1], members[0]];
      }
      var keyString := Join(members, "-");
      var channelId := ChatUtils.CreateShortId(keyString);
      if !watchOk {
        alerts := alerts + ["Failed to start chat with " + target.name + ". Check console for details."];
        return;
      }
      channel := Some(DirectChannel(channelId, members, userName + " & " + target.name));
      showNewMessage := false;
    }

    /** `fetchUsers`: `fetched` is the user list the route returned, `None` when the request failed. */
    method FetchUsers(fetched: Option<seq<ApiUser>>)
      modifies this
      ensures fetched.Some? ==> apiUsers == Filter(fetched.value, (u: ApiUser) => u.id != userId)
      ensures fetched.None? ==> apiUsers == old(apiUsers)
      ensures !loadingUsers
      ensures channel == old(channel) && showNewMessage == old(showNewMessage) && alerts == old(alerts)
    {
      if fetched.Some? {
        apiUsers := Filter(fetched.value, (u: ApiUser) => u.id != userId);
      }
      loadingUsers := false;
    }
  }

  /** The contact list never offers the signed-in user, and keeps everyone else. */
  lemma ContactsExcludeSelf(users: seq<ApiUser>, userId: string)
    ensures var r := Filter(users, (u: ApiUser) => u.id != userId);
      && (forall i :: 0 <= i < |r| ==> r[i].id != userId)
      && (forall u :: u in users && u.id != userId ==> u in r)
  {
    var r := Filter(users, (u: ApiUser) => u.id != userId);
    forall u | u in users && u.id != userId ensures u in r {
      var k :| 0 <= k < |users| && users[k] == u;
    }
  }

  // ---------------------------------------------------------------------
  // Channel titles and previews
  // ---------------------------------------------------------------------

  /** `member.user?.name?.split(' ')[0] || 'User'`. */
  function FirstName(m: Member): (r: string)
    ensures r != ""
  {
    if m.name.Some? && Split(m.name.value, ' ')[0] != "" then Split(m.name.value, ' ')[0] else "User"
  }

  /** `members.filter(member => member.user_id !== userId)`: the members other than the signed-in user, in order. */
  function Others(members: seq<Member>, userId: string): (r: seq<Member>)
    ensures forall i :: 0 <= i < |r| ==> r[i] in members && r[i].userId != userId
  {
    Filter(members, (m: Member) => m.userId != userId)
  }

  /** `getChannelDisplayName` for the signed-in user `userId`. */
  function ChannelDisplayName(channelName: Option<string>, members: seq<Member>, userId: string): (r: string)
    ensures Truthy(channelName) ==> r == channelName.value
  {
    if Truthy(channelName) then channelName.value
    else
      var others := Others(members, userId);
      if |others| == 1 then
        (if Truthy(others[0].name) then others[0].name.value else "Direct Message")
      else if |others| > 1 then SeveralTitle(FirstName(others[0]), FirstName(others[1]), |others|)
      else "Chat"
  }

  /** The title for `count` other members, of which `a` and `b` are the first two first names. */
  function SeveralTitle(a: string, b: string, count: nat): string
  {
    var names := [a, b];
    if count > 2 then Join(names, ", ") + " +" + IntToString(count - 2) else Join(names, ", ")
  }

  /**
   * The two names joined with ", ", then for more than two members " +" and
   * decimal digits reading back as the members beyond the first two.
   */
  lemma SeveralTitleReadsBack(a: string, b: string, count: nat)
    requires count >= 2
    ensures var r := SeveralTitle(a, b, count);
      var head := a + ", " + b;
      && (count == 2 ==> r == head)
      && (count > 2 ==>
            && |r| > |head| + 2 && r[..|head| + 2] == head + " +"
            && DecimalOf(r[|head| + 2..], count - 2))
  {
    JoinTwo(a, b, ", ");
    if count > 2 {
      CountSuffixReadsBack(SeveralTitle(a, b, count), a + ", " + b, count - 2);
    }
  }

  lemma JoinTwo(a: string, b: string, sep: string)
    ensures Join([a, b], sep) == a + sep + b
  {
    assert [a, b][1..] == [b];
  }

  /**
   * A channel's title is never empty, and when the channel has no name of its
   * own and another member, it names the first other member.
   */
  lemma DisplayNameNamesOthers(channelName: Option<string>, members: seq<Member>, userId: string)
    ensures ChannelDisplayName(channelName, members, userId) != ""
    ensures var others := Others(members, userId);
      !Truthy(channelName) && |others| > 1 ==>
        ChannelDisplayName(channelName, members, userId)[..|FirstName(others[0])| + 2]
          == FirstName(others[0]) + ", "
    ensures var others := Others(members, userId);
      !Truthy(channelName) && |others| == 0 ==> ChannelDisplayName(channelName, members, userId) == "Chat"
    ensures var others := Others(members, userId);
      !Truthy(channelName) && |others| == 1 ==>
        ChannelDisplayName(channelName, members, userId)
          == if Truthy(others[0].name) then others[0].name.value else "Direct Message"
  {
    var others := Others(members, userId);
    if !Truthy(channelName) && |others| > 1 {
      var a, b := FirstName(others[0]), FirstName(others[1]);
      var r := SeveralTitle(a, b, |others|);
      TitleOfSeveral(channelName, members, userId);
      SeveralTitleReadsBack(a, b, |others|);
      assert r[..|a| + 2] == (a + ", " + b)[..|a| + 2];
    }
  }

  /** With no name of its own and several others, the title is `SeveralTitle`'s. */
  lemma TitleOfSeveral(channelName: Option<string>, members: seq<Member>, userId: string)
    ensures var others := Others(members, userId);
      !Truthy(channelName) && |others| >= 2 ==>
        ChannelDisplayName(channelName, members, userId)
          == SeveralTitle(FirstName(others[0]), FirstName(others[1]), |others|)
  {
  }

  /**
   * Without a name of its own, a channel with several other members is titled
   * by the first names of the first two joined with ", "; for more than two,
   * " +" follows, then decimal digits reading back as the number of other
   * members beyond those two.
   */
  lemma DisplayNameOfSeveral(channelName: Option<string>, members: seq<Member>, userId: string)
    ensures var others := Others(members, userId);
      var r := ChannelDisplayName(channelName, members, userId);
      !Truthy(channelName) && |others| >= 2 ==>
        var head := FirstName(others[0]) + ", " + FirstName(others[1]);
        && (|others| == 2 ==> r == head)
        && (|others| > 2 ==>
              && |r| > |head| + 2 && r[..|head| + 2] == head + " +"
              && DecimalOf(r[|head| + 2..], |others| - 2))
  {
    var others := Others(members, userId);
    if !Truthy(channelName) && |others| >= 2 {
      TitleOfSeveral(channelName, members, userId);
      SeveralTitleReadsBack(FirstName(others[0]), FirstName(others[1]), |others|);
    }
  }

  /** `digits` is a string of decimal digits that reads back as `n`. */
  ghost predicate DecimalOf(digits: string, n: nat)
  {
    && (forall i :: 0 <= i < |digits| ==> DigitValue(digits[i]) < 10)
    && ParseRadix(digits, 10) == n
  }

  /** The " +k" suffix after the names: its digits read back as k. */
  lemma CountSuffixReadsBack(r: string, head: string, more: nat)
    requires more > 0 && r == head + " +" + IntToString(more)
    ensures |r| > |head| + 2 && r[..|head| + 2] == head + " +"
    ensures DecimalOf(r[|head| + 2..], more)
  {
    assert r[|head| + 2..] == ToRadix(more, 10);
    ToRadixRoundTrip(more, 10);
  }

  /**
   * The member a preview shows an avatar for: in a two-member channel the
   * first member who is not the signed-in user, if any; no one otherwise.
   */
  function PreviewPeer(members: seq<Member>, userId: string): (r: Option<Member>)
    ensures r.Some? ==> |members| == 2 && r.value in members && r.value.userId != userId
    ensures |members| != 2 ==> r.None?
    ensures |members| == 2 && members[0].userId != userId ==> r == Some(members[0])
    ensures |members| == 2 && members[0].userId == userId && members[1].userId != userId ==> r == Some(members[1])
    ensures |members| == 2 && members[0].userId == userId && members[1].userId == userId ==> r.None?
  {
    var others := Others(members, userId);
    if |members| == 2 && |others| > 0 then Some(others[0]) else None
  }
}
