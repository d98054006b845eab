/**
 * Classification of `m.room.member` state events into the one-line
 * description the bot writes to its room-event log.
 */
module Membership {
  import opened Wrappers

  /** A dict value as read by the handler: a string, or Python `None`. */
  type Value = Option<string>

  /** The event's `content` (or `prev_content`) dict, by key. */
  type Content = map<string, Value>

  /** `d.get(key, default)`. */
  function Get(d: Content, key: string, default: Value): Value
  {
    if key in d then d[key] else default
  }

  /** Python truthiness of a string-or-None. */
  predicate Truthy(v: Value)
  {
    v.Some? && v.value != ""
  }

  /** How a value is rendered by an f-string. */
  function Render(v: Value): string
  {
    match v
    case None => "None"
    case Some(s) => s
  }

  /** What happened to the member, one case per description the handler can write. */
  datatype Change =
    | AcceptedInvitation
    | Joined
    | Left
    | RemovedBy(remover: string)
    | InvitedBy(inviter: string)
    | BannedBy(banner: string)
    | MembershipChangedTo(membership: Value)
    | DisplayNameChanged(oldName: string, newName: string)
    | AvatarChanged
    | ProfileUpdated
  {
    predicate IsMembershipChange()
    {
      !(DisplayNameChanged? || AvatarChanged? || ProfileUpdated?)
    }
  }

  /** The membership the event moves to, and the one it moves from. */
  function NewMembership(content: Content): Value { Get(content, "membership", Some("")) }
  function OldMembership(prev: Content): Value { Get(prev, "membership", Some("")) }

  /** The display name after the event; it defaults to the member's user id (the state key). */
  function NewDisplayName(stateKey: string, content: Content): Value { Get(content, "displayname", Some(stateKey)) }
  function OldDisplayName(prev: Content): Value { Get(prev, "displayname", Some("")) }

  /** A display-name change is reported only between two non-empty, different names. */
  predicate NameChanged(stateKey: string, content: Content, prev: Content)
  {
    var dn, pdn := NewDisplayName(stateKey, content), OldDisplayName(prev);
    dn != pdn && Truthy(dn) && Truthy(pdn)
  }

  predicate AvatarDiffers(content: Content, prev: Content)
  {
    Get(content, "avatar_url", None) != Get(prev, "avatar_url", None)
  }

  /**
   * The priority-ordered table: a membership change first, then a display-name
   * change, then an avatar change, otherwise a generic profile update.
   */
  function Classify(sender: string, stateKey: string, content: Content, prev: Content): (c: Change)
    ensures c.IsMembershipChange() <==> OldMembership(prev) != NewMembership(content)
    ensures c.InvitedBy? <==>
              OldMembership(prev) != NewMembership(content) && NewMembership(content) == Some("invite")
    ensures c.BannedBy? <==>
              OldMembership(prev) != NewMembership(content) && NewMembership(content) == Some("ban")
    ensures c.MembershipChangedTo? <==>
              OldMembership(prev) != NewMembership(content)
              && NewMembership(content) !in {Some("join"), Some("leave"), Some("invite"), Some("ban")}
    ensures c.MembershipChangedTo? ==> c.membership == NewMembership(content)
    // the member who acted is named in removal, invitation and ban
    ensures (c.RemovedBy? ==> c.remover == sender) && (c.InvitedBy? ==> c.inviter == sender)
            && (c.BannedBy? ==> c.banner == sender)
    ensures c.DisplayNameChanged? <==>
              OldMembership(prev) == NewMembership(content) && NameChanged(stateKey, content, prev)
    ensures c.DisplayNameChanged? ==>
              && Some(c.oldName) == OldDisplayName(prev) && Some(c.newName) == NewDisplayName(stateKey, content)
              && c.oldName != "" && c.newName != "" && c.oldName != c.newName
    ensures c.AvatarChanged? <==>
              OldMembership(prev) == NewMembership(content) && !NameChanged(stateKey, content, prev)
              && AvatarDiffers(content, prev)
    ensures c.ProfileUpdated? <==>
              OldMembership(prev) == NewMembership(content) && !NameChanged(stateKey, content, prev)
              && !AvatarDiffers(content, prev)
  {
    var membership, prevMembership := NewMembership(content), OldMembership(prev);
    if prevMembership != membership then
      if membership == Some("join") then
        if prevMembership == Some("invite") then AcceptedInvitation else Joined
      else if membership == Some("leave") then
        if sender == stateKey then Left else RemovedBy(sender)
      else if membership == Some("invite") then InvitedBy(sender)
      else if membership == Some("ban") then BannedBy(sender)
      else MembershipChangedTo(membership)
    else if NameChanged(stateKey, content, prev) then
      DisplayNameChanged(OldDisplayName(prev).value, NewDisplayName(stateKey, content).value)
    else if AvatarDiffers(content, prev) then AvatarChanged
    else ProfileUpdated
  }

  /** Within a membership change: who left of their own accord and who was removed. */
  lemma LeaveCases(sender: string, stateKey: string, content: Content, prev: Content)
    requires NewMembership(content) == Some("leave") && OldMembership(prev) != Some("leave")
    ensures Classify(sender, stateKey, content, prev) ==
              if sender == stateKey then Left else RemovedBy(sender)
  {
  }

  /** Within a membership change: joining after an invitation is reported as accepting it. */
  lemma JoinCases(sender: string, stateKey: string, content: Content, prev: Content)
    requires NewMembership(content) == Some("join") && OldMembership(prev) != Some("join")
    ensures Classify(sender, stateKey, content, prev) ==
              if OldMembership(prev) == Some("invite") then AcceptedInvitation else Joined
  {
  }

  /** Within a membership change to anything but join or leave: invitation, ban, or the raw new value. */
  lemma InviteBanOther(sender: string, stateKey: string, content: Content, prev: Content)
    requires OldMembership(prev) != NewMembership(content)
    requires NewMembership(content) != Some("join") && NewMembership(content) != Some("leave")
    ensures Classify(sender, stateKey, content, prev) ==
              if NewMembership(content) == Some("invite") then InvitedBy(sender)
              else if NewMembership(content) == Some("ban") then BannedBy(sender)
              else MembershipChangedTo(NewMembership(content))
  {
  }

  /** A name set for the first time (old name absent or empty) is never reported as a change. */
  lemma FirstNameNotAChange(sender: string, stateKey: string, content: Content, prev: Content)
    requires !Truthy(OldDisplayName(prev))
    ensures !Classify(sender, stateKey, content, prev).DisplayNameChanged?
  {
  }

  /** An event whose content equals its previous content is a generic profile update. */
  lemma UnchangedIsProfileUpdate(sender: string, stateKey: string, content: Content)
    ensures Classify(sender, stateKey, content, content) == ProfileUpdated
  {
  }

  /** Which of the ten cases a change is. */
  function Tag(c: Change): nat
  {
    match c
    case AcceptedInvitation => 0
    case Joined => 1
    case Left => 2
    case RemovedBy(_) => 3
    case InvitedBy(_) => 4
    case BannedBy(_) => 5
    case MembershipChangedTo(_) => 6
    case DisplayNameChanged(_, _) => 7
    case AvatarChanged => 8
    case ProfileUpdated => 9
  }

  /** Reads the case back from a logged description. */
  function TagOf(d: string): nat
  {
    if d == "accepted invitation and joined the room" then 0
    else if d == "joined the room" then 1
    else if d == "left the room" then 2
    else if "was removed from the room by " <= d then 3
    else if "was invited to the room by " <= d then 4
    else if "was banned from the room by " <= d then 5
    else if "membership changed to " <= d then 6
    else if "changed display name from '" <= d then 7
    else if d == "changed their avatar" then 8
    else 9
  }

  lemma TagOfRemoved(s: string)
    ensures TagOf("was removed from the room by " + s) == 3
  {
    var d := "was removed from the room by " + s;
    assert d[0] == 'w';
    assert d[..29] == "was removed from the room by ";
  }

  lemma TagOfInvited(s: string)
    ensures TagOf("was invited to the room by " + s) == 4
  {
    var d := "was invited to the room by " + s;
    assert d[0] == 'w' && d[4] == 'i';
    assert d[..27] == "was invited to the room by ";
  }

  lemma TagOfBanned(s: string)
    ensures TagOf("was banned from the room by " + s) == 5
  {
    var d := "was banned from the room by " + s;
    assert d[0] == 'w' && d[4] == 'b';
    assert d[..28] == "was banned from the room by ";
  }

  lemma TagOfMembership(s: string)
    ensures TagOf("membership changed to " + s) == 6
  {
    var d := "membership changed to " + s;
    assert d[0] == 'm';
    assert d[..22] == "membership changed to ";
  }

  lemma TagOfDisplayName(o: string, n: string)
    ensures TagOf("changed display name from '" + o + "' to '" + n + "'") == 7
  {
    var d := "changed display name from '" + o + "' to '" + n + "'";
    assert d[0] == 'c' && d[8] == 'd';
    assert d[..27] == "changed display name from '";
  }

  lemma TagOfAcceptedInvitation()
    ensures TagOf("accepted invitation and joined the room") == 0
  {
  }

  lemma TagOfJoined()
    ensures TagOf("joined the room") == 1
  {
  }

  lemma TagOfLeft()
    ensures TagOf("left the room") == 2
  {
  }

  lemma TagOfAvatarChanged()
    ensures TagOf("changed their avatar") == 8
  {
  }

  lemma TagOfProfileUpdated()
    ensures TagOf("updated their profile") == 9
  {
  }

  /** The logged description of a change; the case can be read back from it. */
  function Describe(c: Change): (d: string)
    ensures TagOf(d) == Tag(c)
  {
    match c
    case AcceptedInvitation => TagOfAcceptedInvitation(); "accepted invitation and joined the room"
    case Joined => TagOfJoined(); "joined the room"
    case Left => TagOfLeft(); "left the room"
    case RemovedBy(s) => TagOfRemoved(s); "was removed from the room by " + s
    case InvitedBy(s) => TagOfInvited(s); "was invited to the room by " + s
    case BannedBy(s) => TagOfBanned(s); "was banned from the room by " + s
    case MembershipChangedTo(m) => TagOfMembership(Render(m)); "membership changed to " + Render(m)
    case DisplayNameChanged(o, n) =>
      TagOfDisplayName(o, n); "changed display name from '" + o + "' to '" + n + "'"
    case AvatarChanged => TagOfAvatarChanged(); "changed their avatar"
    case ProfileUpdated => TagOfProfileUpdated(); "updated their profile"
  }

  /** Changes of different cases are never logged with the same description. */
  lemma DistinctCasesDistinctDescriptions(c1: Change, c2: Change)
    requires Tag(c1) != Tag(c2)
    ensures Describe(c1) != Describe(c2)
  {
  }
}
