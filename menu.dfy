/**
  The main menu's player handling: the list of player names, in which the
  current player's entry carries a leading '*', the lookup of the current
  player, and switching to a chosen or a newly created player. Entries are
  Java references that may be null, hence Option.
 */
module Menus {
  import opened Options
  import Games

  /** Game.NEW_PLAYER, the last entry of the list as loaded. */
  const NewPlayer: string := "Create new player..."
  /** Game.MAX_NAME_LENGTH. */
  const MaxNameLength: int := 8
  const CurrentPlayerLabel: string := "Current Player: "

  /** An entry charAt(0) can be called on: not null, not empty. */
  predicate Named(n: Option<string>)
  {
    n.Some? && |n.value| > 0
  }

  /** An entry marked as the current player. */
  predicate Starred(n: Option<string>)
  {
    Named(n) && n.value[0] == '*'
  }

  /** A name with at most one leading '*'. */
  predicate SingleStar(s: string)
  {
    !(|s| > 1 && s[0] == '*' && s[1] == '*')
  }

  /** The first starred entry, if any. */
  function FirstStarred(ns: seq<Option<string>>): (r: Option<nat>)
    ensures r.Some? ==> r.value < |ns| && Starred(ns[r.value]) && forall j :: 0 <= j < r.value ==> !Starred(ns[j])
    ensures r.None? ==> forall j :: 0 <= j < |ns| ==> !Starred(ns[j])
  {
    if |ns| == 0 then None
    else if Starred(ns[0]) then Some(0)
    else match FirstStarred(ns[1..])
      case None => None
      case Some(i) => Some(i + 1)
  }

  /** The constructor's scan reads entries up to the first starred one (all of them if none is): those must not be null or empty. */
  predicate ScanNamed(ns: seq<Option<string>>)
  {
    forall i :: 0 <= i < |ns| && (forall j :: 0 <= j < i ==> !Starred(ns[j])) ==> Named(ns[i])
  }

  /** The current player the constructor finds: the first starred entry without its '*', or null. */
  function CurrentIn(ns: seq<Option<string>>): Option<string>
  {
    match FirstStarred(ns)
    case None => None
    case Some(i) => Some(ns[i].value[1..])
  }

  /** Java's string concatenation with a reference that may be null. */
  function Shown(n: Option<string>): string
  {
    if n.Some? then n.value else "null"
  }

  /** substring(1) on a starred name; any other name is kept. */
  function Unstar(s: string): (r: string)
    ensures |s| > 0 && s[0] == '*' ==> ['*'] + r == s
    ensures !(|s| > 0 && s[0] == '*') ==> r == s
  {
    if |s| > 0 && s[0] == '*' then s[1..] else s
  }

  /** The normalisation before switchPlayerName(): a '*' is put in front unless there is one. */
  function Star(s: string): (r: string)
    requires |s| > 0
  {
    if s[0] != '*' then "*" + s else s
  }

  /** A name with at most one leading '*' gets exactly one, and keeps its bare name. */
  lemma StarOnce(s: string)
    requires |s| > 0 && SingleStar(s)
    ensures Starred(Some(Star(s))) && SingleStar(Star(s))
    ensures Unstar(Star(s)) == Unstar(s)
  {
    if s[0] != '*' {
      assert Star(s)[1..] == s;
    }
  }

  /** The existing-player branch of switchPlayer() on one entry. */
  function ChooseOne(n: Option<string>, choice: string): Option<string>
    requires Named(n)
  {
    if n.value == choice then (if choice[0] != '*' then Some("*" + n.value) else Some(choice))
    else if n.value[0] == '*' then Some(n.value[1..])
    else n
  }

  /** The existing-player branch on the whole list. */
  function Chosen(ns: seq<Option<string>>, choice: string): (r: seq<Option<string>>)
    requires (forall i :: 0 <= i < |ns| ==> Named(ns[i]))
    ensures |r| == |ns|
  {
    seq(|ns|, i requires 0 <= i < |ns| => ChooseOne(ns[i], choice))
  }

  /**
    Choosing an existing player stars exactly the entries equal to the
    choice and unstars every other one; every entry keeps its bare name.
   */
  lemma ChosenStarsTheChoice(ns: seq<Option<string>>, choice: string)
    requires (forall i :: 0 <= i < |ns| ==> Named(ns[i]) && SingleStar(ns[i].value))
    ensures forall i :: 0 <= i < |ns| ==> (Starred(Chosen(ns, choice)[i]) <==> ns[i] == Some(choice))
    ensures forall i :: 0 <= i < |ns| ==> Chosen(ns, choice)[i].Some? && Unstar(Chosen(ns, choice)[i].value) == Unstar(ns[i].value)
  {
    forall i | 0 <= i < |ns|
      ensures Starred(Chosen(ns, choice)[i]) <==> ns[i] == Some(choice)
      ensures Chosen(ns, choice)[i].Some? && Unstar(Chosen(ns, choice)[i].value) == Unstar(ns[i].value)
    {
      var n := ns[i].value;
      if n == choice && choice[0] != '*' {
        assert ("*" + n)[1..] == n;
      }
    }
  }

  /** With names distinct, choosing the entry at k leaves exactly one starred entry, the one at k. */
  lemma ChosenStarsOne(ns: seq<Option<string>>, k: nat)
    requires forall i :: 0 <= i < |ns| ==> Named(ns[i]) && SingleStar(ns[i].value)
    requires k < |ns| && Named(ns[k]) && forall i :: 0 <= i < |ns| && i != k ==> ns[i] != ns[k]
    ensures var r := Chosen(ns, ns[k].value);
      Starred(r[k]) && forall i :: 0 <= i < |r| && Starred(r[i]) ==> i == k
  {
    ChosenStarsTheChoice(ns, ns[k].value);
  }

  /** The checks of the new-name dialog: at most MAX_NAME_LENGTH long and equal to none of entries 0..n-2. */
  predicate Accepted(ns: seq<Option<string>>, name: string)
  {
    |name| <= MaxNameLength && forall j :: 0 <= j < |ns| - 1 ==> ns[j] != Some(name)
  }

  /** The name typed at k is the first one the dialog accepts. */
  predicate FirstAcceptedAt(ns: seq<Option<string>>, typed: seq<string>, k: int)
  {
    0 <= k < |typed| && Accepted(ns, typed[k]) && forall j :: 0 <= j < k ==> !Accepted(ns, typed[j])
  }

  /** Where the do-while of the new-name dialog stops, looking from the k-th typed name on. */
  function FirstAcceptedFrom(ns: seq<Option<string>>, typed: seq<string>, k: nat): (i: nat)
    requires exists i :: k <= i < |typed| && Accepted(ns, typed[i])
    ensures k <= i < |typed| && Accepted(ns, typed[i]) && forall j :: k <= j < i ==> !Accepted(ns, typed[j])
    decreases |typed| - k
  {
    if Accepted(ns, typed[k]) then k else FirstAcceptedFrom(ns, typed, k + 1)
  }

  /** The name the user ends up creating. */
  function NewName(ns: seq<Option<string>>, typed: seq<string>): (name: string)
    requires exists i :: 0 <= i < |typed| && Accepted(ns, typed[i])
  {
    typed[FirstAcceptedFrom(ns, typed, 0)]
  }

  /**
    The new-player branch as intended: the list grows by one, the new name
    comes first with the '*', and every old entry follows, unstarred, the
    sentinel still last.
   */
  function Added(ns: seq<Option<string>>, name: string): (r: seq<Option<string>>)
    requires forall i :: 0 <= i < |ns| ==> Named(ns[i])
  {
    [Some("*" + name)] + seq(|ns|, i requires 0 <= i < |ns| => assert Named(ns[i]); Some(Unstar(ns[i].value)))
  }

  /**
    The new-player branch as written: the copy loop stops one entry short
    (name < temporary.length), so the last old entry, the sentinel, is not
    copied and the last slot of the new array stays null.
   */
  function AddedAsWritten(ns: seq<Option<string>>, name: string): (r: seq<Option<string>>)
    requires |ns| > 0 && forall i :: 0 <= i < |ns| - 1 ==> Named(ns[i])
  {
    [Some("*" + name)] + seq(|ns| - 1, i requires 0 <= i < |ns| - 1 => assert Named(ns[i]); Some(Unstar(ns[i].value))) + [None]
  }

  /**
    Adding a player keeps every old entry's bare name, one place further
    down and unstarred, puts the new player first and starred, and keeps
    the sentinel last: the only starred entry is the new one.
   */
  lemma AddedKeepsEveryEntry(ns: seq<Option<string>>, name: string)
    requires forall i :: 0 <= i < |ns| ==> Named(ns[i]) && SingleStar(ns[i].value)
    requires |ns| > 0 && ns[|ns| - 1] == Some(NewPlayer)
    ensures var r := Added(ns, name);
      |r| == |ns| + 1 && r[0] == Some("*" + name) && r[|ns|] == Some(NewPlayer) &&
      (forall i :: 0 <= i < |ns| ==> r[i + 1].Some? && r[i + 1].value == Unstar(ns[i].value) && !Starred(r[i + 1])) &&
      (forall i :: 0 <= i < |r| ==> r[i].Some?)
  {
    var r := Added(ns, name);
    forall i | 0 <= i < |ns|
      ensures r[i + 1].Some? && r[i + 1].value == Unstar(ns[i].value) && !Starred(r[i + 1])
    {
      assert r[i + 1] == Some(Unstar(ns[i].value));
    }
    assert NewPlayer[0] != '*';
  }

  /**
    As written, the new list ends in null and has lost the sentinel, so
    the next switch to an existing player, which calls equals() on every
    entry, dereferences null, and no further player can be created.
   */
  lemma AddedAsWrittenLosesSentinel(ns: seq<Option<string>>, name: string)
    requires |ns| > 0 && forall i :: 0 <= i < |ns| - 1 ==> Named(ns[i]) && Unstar(ns[i].value) != NewPlayer
    requires name != NewPlayer
    ensures var r := AddedAsWritten(ns, name);
      |r| == |ns| + 1 && r[|ns|] == None && Some(NewPlayer) !in r && !(forall i :: 0 <= i < |r| ==> Named(r[i]))
  {
    var r := AddedAsWritten(ns, name);
    forall i | 0 <= i < |r|
      ensures r[i] != Some(NewPlayer)
    {
      if i == 0 {
        assert r[0].value[0] == '*' && NewPlayer[0] != '*';
      } else if i < |ns| {
        assert r[i] == Some(Unstar(ns[i - 1].value));
      }
    }
    assert !Named(r[|ns|]);
  }

  /** The list the game starts with, one player current: adding a player loses the sentinel as written and keeps it as intended. */
  lemma AddedAsWrittenExample()
    ensures AddedAsWritten([Some("*Bob"), Some(NewPlayer)], "Amy") == [Some("*Amy"), Some("Bob"), None]
    ensures Added([Some("*Bob"), Some(NewPlayer)], "Amy") == [Some("*Amy"), Some("Bob"), Some(NewPlayer)]
  {
    assert Unstar("*Bob") == "Bob" && Unstar(NewPlayer) == NewPlayer;
    var ns := [Some("*Bob"), Some(NewPlayer)];
    assert "*" + "Amy" == "*Amy";
    var w, c := AddedAsWritten(ns, "Amy"), Added(ns, "Amy");
    assert |w| == 3 && w[0] == Some("*Amy") && w[1] == Some("Bob") && w[2] == None;
    assert |c| == 3 && c[0] == Some("*Amy") && c[1] == Some("Bob") && c[2] == Some(NewPlayer);
  }

  class Menu {
    const game: Games.Game
    /** userName: the current player without its '*', null if the list has none. */
    var userName: Option<string>
    var userNames: array<Option<string>>
    /** titles[0], the first button's text. */
    var title: string

    /** Menu(game): take the players' list and find the current player, the first starred entry. */
    constructor (game: Games.Game, players: array<Option<string>>)
      requires ScanNamed(players[..])
      ensures this.game == game && userNames == players
      ensures userName == CurrentIn(players[..])
      ensures title == CurrentPlayerLabel + Shown(userName)
    {
      this.game := game;
      userNames := players;
      userName := None;
      new;
      var found := FindCurrent();
      title := CurrentPlayerLabel + Shown(userName);
    }

    /** The constructor's loop: stop at the first entry that starts with '*'. */
    method FindCurrent() returns (found: bool)
      requires ScanNamed(userNames[..])
      modifies this`userName
      ensures found == FirstStarred(userNames[..]).Some?
      ensures found ==> userName == CurrentIn(userNames[..])
      ensures !found ==> userName == old(userName)
    {
      var finding := true;
      var name := 0;
      while finding && name < userNames.Length
        invariant 0 <= name <= userNames.Length
        invariant finding ==> userName == old(userName) && forall j :: 0 <= j < name ==> !Starred(userNames[j])
        invariant !finding ==> 0 < name && FirstStarred(userNames[..]) == Some(name - 1) &&
                               userName == CurrentIn(userNames[..])
        decreases userNames.Length - name, finding
      {
        assert Named(userNames[..][name]);
        if userNames[name].value[0] == '*' {
          userName := Some(userNames[name].value[1..]);
          finding := false;
          FirstStarredIs(userNames[..], name);
        }
        name := name + 1;
      }
      found := !finding;
      if finding {
        FirstStarredNone(userNames[..]);
      }
    }

    /**
      switchPlayer(), with the dialogs' answers as inputs: the entry chosen
      from the list and, for a new player, the names typed until one is
      accepted. The list is rewritten, then the name, given a '*' if it has
      none, becomes the current player; an empty new name makes charAt(0)
      throw after the list was rewritten. A new player is added as the code
      evidently intends, keeping every old entry.
     */
    method SwitchPlayer(choice: string, typed: seq<string>) returns (thrown: bool)
      requires forall i :: 0 <= i < userNames.Length ==> Named(userNames[i])
      requires choice == NewPlayer ==> exists i :: 0 <= i < |typed| && Accepted(userNames[..], typed[i])
      modifies this`userNames, userNames, this`userName, this`title, game`currentPlayer
      ensures choice != NewPlayer ==> userNames == old(userNames) && userNames[..] == Chosen(old(userNames[..]), choice)
      ensures choice == NewPlayer ==> fresh(userNames) && userNames[..] == Added(old(userNames[..]), NewName(old(userNames[..]), typed))
      ensures var newName := if choice == NewPlayer then NewName(old(userNames[..]), typed) else choice;
        thrown == (newName == "") &&
        (thrown ==> userName == old(userName) && title == old(title) && game.currentPlayer == old(game.currentPlayer)) &&
        (!thrown ==> userName == Some(Star(newName)[1..]) && title == CurrentPlayerLabel + Star(newName)[1..] &&
                     game.currentPlayer == Star(newName)[1..])
    {
      var newName := choice;
      if choice == NewPlayer {
        var tries;
        newName, tries := ReadNewName(typed);
        AddPlayer(newName);
      } else {
        ChoosePlayer(choice);
      }
      if newName == "" {
        return true;
      }
      if newName[0] != '*' {
        newName := "*" + newName;
      }
      SwitchPlayerName(newName);
      return false;
    }

    /** The do-while of the new-name dialog: ask again until a name is accepted; tries is how many were refused. */
    method ReadNewName(typed: seq<string>) returns (name: string, tries: nat)
      requires exists i :: 0 <= i < |typed| && Accepted(userNames[..], typed[i])
      ensures FirstAcceptedAt(userNames[..], typed, tries) && name == typed[tries]
      ensures name == NewName(userNames[..], typed)
    {
      ghost var last := FirstAcceptedFrom(userNames[..], typed, 0);
      tries := 0;
      var valid := false;
      name := typed[0];
      while !valid
        invariant tries <= last
        invariant forall j :: 0 <= j < tries ==> !Accepted(userNames[..], typed[j])
        invariant valid ==> tries < |typed| && name == typed[tries] && Accepted(userNames[..], typed[tries])
        decreases last - tries + (if valid then 0 else 1)
      {
        name := typed[tries];
        valid := |name| <= MaxNameLength;
        if valid {
          var taken := NameTaken(name);
          valid := !taken;
        }
        if !valid {
          tries := tries + 1;
        }
      }
      FirstAcceptedUnique(userNames[..], typed, tries, last);
    }

    /** The inner loop of the dialog: does the name equal one of entries 0..n-2? */
    method NameTaken(newName: string) returns (taken: bool)
      ensures taken <==> exists j :: 0 <= j < userNames.Length - 1 && userNames[j] == Some(newName)
    {
      var valid := true;
      var name := 0;
      while valid && name < userNames.Length - 1
        invariant 0 <= name <= userNames.Length
        invariant valid ==> forall j :: 0 <= j < name ==> userNames[j] != Some(newName)
        invariant !valid ==> 0 < name <= userNames.Length - 1 && userNames[name - 1] == Some(newName)
        decreases userNames.Length - name, valid
      {
        if userNames[name] == Some(newName) {
          valid := false;
        }
        name := name + 1;
      }
      taken := !valid;
    }

    /** The new-player branch: a fresh array one longer, the new name first and starred, the old entries after it unstarred. */
    method AddPlayer(newName: string)
      requires forall i :: 0 <= i < userNames.Length ==> Named(userNames[i])
      modifies this`userNames
      ensures fresh(userNames) && userNames[..] == Added(old(userNames[..]), newName)
    {
      var temporary := userNames;
      var names := new Option<string>[temporary.Length + 1](_ => None);
      names[0] := Some("*" + newName);
      var name := 1;
      while name <= temporary.Length
        invariant 1 <= name <= temporary.Length + 1
        invariant names[0] == Some("*" + newName)
        invariant forall i :: 1 <= i < name ==> names[i] == Some(Unstar(temporary[i - 1].value))
      {
        if temporary[name - 1].value[0] == '*' {
          names[name] := Some(temporary[name - 1].value[1..]);
        } else {
          names[name] := temporary[name - 1];
        }
        name := name + 1;
      }
      userNames := names;
      assert userNames[..] == Added(old(userNames[..]), newName);
    }

    /** The existing-player branch: star the chosen entry, unstar every other. */
    method ChoosePlayer(newName: string)
      requires forall i :: 0 <= i < userNames.Length ==> Named(userNames[i])
      modifies userNames
      ensures userNames[..] == Chosen(old(userNames[..]), newName)
    {
      var name := 0;
      while name < userNames.Length
        invariant 0 <= name <= userNames.Length
        invariant forall i :: 0 <= i < name ==> userNames[i] == ChooseOne(old(userNames[i]), newName)
        invariant forall i :: name <= i < userNames.Length ==> userNames[i] == old(userNames[i])
      {
        var entry := userNames[name].value;
        if entry == newName {
          if newName[0] != '*' {
            userNames[name] := Some("*" + entry);
          } else {
            userNames[name] := Some(newName);
          }
        } else if entry[0] == '*' {
          userNames[name] := Some(entry[1..]);
        }
        name := name + 1;
      }
      assert userNames[..] == Chosen(old(userNames[..]), newName);
    }

    /**
      switchPlayerName(newName), for a starred name: the game's current
      player and the menu's agree on the name without its '*', and the
      first button shows it.
     */
    method SwitchPlayerName(newName: string)
      requires |newName| > 0 && newName[0] == '*'
      modifies this`userName, this`title, game`currentPlayer
      ensures userName == Some(newName[1..]) && game.currentPlayer == newName[1..]
      ensures title == CurrentPlayerLabel + newName[1..]
    {
      game.ChangeCurrentPlayer(newName);
      userName := Some(newName[1..]);
      title := CurrentPlayerLabel + newName[1..];
    }
  }

  /** FirstStarred finds i once every entry before it is unstarred and it is starred. */
  lemma {:induction false} FirstStarredIs(ns: seq<Option<string>>, i: nat)
    requires i < |ns| && Starred(ns[i]) && forall j :: 0 <= j < i ==> !Starred(ns[j])
    ensures FirstStarred(ns) == Some(i)
  {
    if i > 0 {
      FirstStarredIs(ns[1..], i - 1);
    }
  }

  /** FirstStarred finds nothing when no entry is starred. */
  lemma FirstStarredNone(ns: seq<Option<string>>)
    requires forall j :: 0 <= j < |ns| ==> !Starred(ns[j])
    ensures FirstStarred(ns) == None
  {
  }

  /** Only one index is the first accepted one. */
  lemma FirstAcceptedUnique(ns: seq<Option<string>>, typed: seq<string>, i: nat, k: nat)
    requires i < |typed| && Accepted(ns, typed[i]) && forall j :: 0 <= j < i ==> !Accepted(ns, typed[j])
    requires k < |typed| && Accepted(ns, typed[k]) && forall j :: 0 <= j < k ==> !Accepted(ns, typed[j])
    ensures i == k
  {
  }
}
