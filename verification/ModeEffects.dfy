/** MODE in full: what each line of it does. */
module ModeEffects {
  import opened Text
  import opened Replies
  import opened Clients
  import opened State
  import opened Modes
  import opened Invariant
  import opened FanOut
  import opened Effects
  import opened ModeRequests
  import Announcement

  /** A letter of the alphabet that is no mode. */
  predicate Foreign(c: char) {
    ('a' <= c <= 'z' || 'A' <= c <= 'Z') && c != 'i' && c != 't' && c != 'k' && c != 'o' && c != 'l'
  }

  lemma {:induction false} UnknownIsForeign(text: string)
    ensures UnknownLetter(text).None? ==> forall i :: 0 <= i < |text| ==> !Foreign(text[i])
    ensures UnknownLetter(text).Some? ==>
      exists i :: 0 <= i < |text| && Foreign(text[i]) && text[i] == UnknownLetter(text).value && forall j :: 0 <= j < i ==> !Foreign(text[j])
  {
    if text != "" && !Foreign(text[0]) {
      UnknownIsForeign(text[1..]);
      if UnknownLetter(text).Some? {
        var i :| 0 <= i < |text[1..]| && Foreign(text[1..][i]) && text[1..][i] == UnknownLetter(text).value && forall j :: 0 <= j < i ==> !Foreign(text[1..][j]);
        assert text[i + 1] == text[1..][i];
        assert forall j :: 1 <= j < i + 1 ==> text[j] == text[1..][j - 1];
      } else {
        assert forall i :: 1 <= i < |text| ==> text[i] == text[1..][i - 1];
      }
    }
  }

  /** MODE: no parameter is an error, a target that is no channel's name is ignored, an unknown channel is an
      error; one parameter is answered with the channel's modes; a change is for operators, and refused for
      its first foreign letter; otherwise it is carried out, and if any letter counted every member, the
      issuer included, hears of it once. */
  ghost predicate ModeDone(s: Core, t: Core, fd: int, params: seq<string>)
    requires fd in s.clients
  {
    var c := s.clients[fd];
    if params == [] then Told(s, t, fd, Numeric(461, [c.nickname, "MODE"]))
    else
      var target := params[0];
      if target == "" || (target[0] != '#' && target[0] != '&') then t == s
      else if target !in s.channels then Told(s, t, fd, Numeric(403, [c.nickname, target]))
      else
        var a := s.channels[target];
        if |params| == 1 then Told(s, t, fd, ModesAre(c.nickname, target, ActiveModes(a), ActiveArgs(a)))
        else if fd !in a.operators then Told(s, t, fd, Numeric(482, [c.nickname, target]))
        else if exists i :: 0 <= i < |params[1]| && Foreign(params[1][i]) then
          exists i :: 0 <= i < |params[1]| && Foreign(params[1][i]) && (forall j :: 0 <= j < i ==> !Foreign(params[1][j]))
                      && Told(s, t, fd, Numeric(472, [c.nickname, [params[1][i]]]))
        else
          exists u, modes, margs :: CarriedOut(s, u, fd, target, params, modes, margs)
            && Heralded(u, t, a.members, ModeSet(c.nickname, c.username, target, modes, margs))
  }

  /** An announcement of something. */
  ghost predicate Heralded(u: Core, t: Core, members: seq<int>, said: Reply)
    requires said.ModeSet?
  {
    if said.modes == "" then t == u else Reached(u, t, Listeners(members, None), said)
  }

  lemma ChangeEffect(s: Core, fd: int, target: string, params: seq<string>)
    requires Inv(s) && fd in s.clients && target in s.channels && |params| >= 2
    ensures
      var c := s.clients[fd];
      var x := Interpret(s, fd, c.nickname, target, params);
      CarriedOut(s, x.core, fd, target, params, x.modes, x.margs)
      && Heralded(x.core, ChangeModes(s, fd, target, params), s.channels[target].members,
                  ModeSet(c.nickname, c.username, target, x.modes, x.margs))
  {
    hide Inv, Interpret, ChangeModes, CarriedOut, Announcement.Replay, Announcement.WellSigned, Reached;
    RequestCarriedOut(s, fd, target, params);
    Announcement.ModeAnnouncementFaithful(s, fd, target, params);
  }

  lemma ModeQueries(s: Core, fd: int, params: seq<string>)
    requires fd in s.clients && params != [] && params[0] in s.channels && params[0] != ""
    requires |params| == 1 || fd !in s.channels[params[0]].operators || UnknownLetter(params[1]).Some?
    ensures ModeDone(s, Mode(s, fd, params), fd, params)
  {
    hide Reached, ActiveModes, ActiveArgs, Foreign, UnknownLetter, Client.SendMessage, CarriedOut;
    var nick := s.clients[fd].nickname;
    var a := s.channels[params[0]];
    Tells(s, fd, ModesAre(nick, params[0], ActiveModes(a), ActiveArgs(a)));
    Tells(s, fd, Numeric(482, [nick, params[0]]));
    if |params| > 1 {
      UnknownIsForeign(params[1]);
      if UnknownLetter(params[1]).Some? { Tells(s, fd, Numeric(472, [nick, [UnknownLetter(params[1]).value]])); }
    }
  }

  lemma ModeIsDone(s: Core, fd: int, params: seq<string>)
    requires Inv(s) && fd in s.clients
    ensures ModeDone(s, Mode(s, fd, params), fd, params)
  {
    hide Inv, Reached, ActiveModes, ActiveArgs, Foreign, UnknownLetter, Client.SendMessage, CarriedOut, ChangeModes, Interpret, Heralded;
    var nick := s.clients[fd].nickname;
    Tells(s, fd, Numeric(461, [nick, "MODE"]));
    if params != [] {
      var target := params[0];
      Tells(s, fd, Numeric(403, [nick, target]));
      if target != "" && target in s.channels {
        if |params| == 1 || fd !in s.channels[target].operators || UnknownLetter(params[1]).Some? {
          ModeQueries(s, fd, params);
        } else {
          UnknownIsForeign(params[1]);
          ChangeEffect(s, fd, target, params);
        }
      }
    }
  }
}
