/** Creating a ticket from the form: the priority buttons offered after the
    description, the lookup of the pressed button's priority, and the issue
    the bot submits to the tracker. */
module Drafts {
  import opened Wrappers
  import opened Text
  import opened Tokens

  /** One entry of the map `get_priorities` returns: English name and tracker id. */
  datatype PriorityEntry = PriorityEntry(name: string, id: string)

  /** The second `priority_translation_map`: button label and the English
      name it stands for, in the order the map lists them. */
  const PriorityLabels: seq<(string, string)> := [
    ("\U{1F6CC}", "Low"),
    ("\U{1F6B6}\U{200D}\U{2640}\U{FE0F}", "Medium"),
    ("\U{1F3C3}\U{200D}\U{2640}\U{FE0F}", "High")]

  predicate Offered(name: string) {
    name == "Low" || name == "Medium" || name == "High"
  }

  datatype PriorityButton = PriorityButton(caption: string, callback: string)

  /** The inner loop of the comprehension: a button for each label whose
      English name is the entry's. */
  function ButtonsFor(e: PriorityEntry, labels: seq<(string, string)>, now: nat): seq<PriorityButton> {
    if labels == [] then []
    else (if labels[0].1 == e.name then [PriorityButton(labels[0].0, PriorityToken(e.id, now))] else [])
         + ButtonsFor(e, labels[1..], now)
  }

  /** `[button for english_name, id in priorities.items() for russian_name,
      mapped_english in priority_translation_map.items() if mapped_english ==
      english_name]`. */
  function PriorityButtons(ps: seq<PriorityEntry>, now: nat): seq<PriorityButton> {
    if ps == [] then [] else ButtonsFor(ps[0], PriorityLabels, now) + PriorityButtons(ps[1..], now)
  }

  /** Each entry gets exactly one button if its name is Low, Medium or High
      and none otherwise, and that button carries the entry's id. */
  lemma ButtonsForEntry(e: PriorityEntry, now: nat)
    ensures Offered(e.name) ==>
              |ButtonsFor(e, PriorityLabels, now)| == 1 && ButtonsFor(e, PriorityLabels, now)[0].callback == PriorityToken(e.id, now)
    ensures !Offered(e.name) ==> ButtonsFor(e, PriorityLabels, now) == []
  {
    var l := PriorityLabels;
    var t := PriorityToken(e.id, now);
    assert l[1..][1..] == [l[2]];
    assert l[1..][1..][1..] == [];
    assert ButtonsFor(e, l[1..][1..][1..], now) == [];
    var b3 := ButtonsFor(e, l[1..][1..], now);
    assert l[2].1 == "High";
    assert b3 == (if e.name == "High" then [PriorityButton(l[2].0, t)] else []) + [];
    var b2 := ButtonsFor(e, l[1..], now);
    assert b2 == (if e.name == "Medium" then [PriorityButton(l[1].0, t)] else []) + b3;
    assert ButtonsFor(e, l, now) == (if e.name == "Low" then [PriorityButton(l[0].0, t)] else []) + b2;
  }

  /** The buttons, one per offered entry in the order the tracker listed them. */
  function OfferedIds(ps: seq<PriorityEntry>): seq<string> {
    if ps == [] then [] else (if Offered(ps[0].name) then [ps[0].id] else []) + OfferedIds(ps[1..])
  }

  lemma {:induction false} PriorityButtonsOffered(ps: seq<PriorityEntry>, now: nat)
    ensures var b := PriorityButtons(ps, now);
            && |b| == |OfferedIds(ps)|
            && forall i :: 0 <= i < |b| ==> b[i].callback == PriorityToken(OfferedIds(ps)[i], now)
  {
    if ps != [] {
      ButtonsForEntry(ps[0], now);
      PriorityButtonsOffered(ps[1..], now);
    }
  }

  /** `next(name for name, id in priorities.items() if id == priority_id)`;
      `None` where `next` raises. */
  function FindPriorityName(ps: seq<PriorityEntry>, id: string): (r: Option<string>)
    ensures r.Some? ==> exists e :: e in ps && e.id == id && e.name == r.value
    ensures r.None? ==> forall e :: e in ps ==> e.id != id
  {
    if ps == [] then None
    else if ps[0].id == id then Some(ps[0].name)
    else FindPriorityName(ps[1..], id)
  }

  /** The button pressed brings back the priority it was made for: its
      callback splits back into the entry's id, and that id leads to the
      entry's name when the tracker's ids are distinct. */
  lemma PriorityButtonRoundTrip(ps: seq<PriorityEntry>, i: nat, now: nat)
    requires i < |ps|
    requires forall j, k :: 0 <= j < k < |ps| ==> ps[j].id != ps[k].id
    requires '_' !in ps[i].id
    ensures var pick := ParsePriority(PriorityToken(ps[i].id, now));
            && pick == Some(PriorityPick(ps[i].id, now))
            && FindPriorityName(ps, pick.value.priorityId) == Some(ps[i].name)
            && Route(PriorityToken(ps[i].id, now)) == Priority
  {
    ParsePriorityToken(ps[i].id, now);
    RoutePriorityToken(ps[i].id, now);
    FirstWithId(ps, i);
  }

  lemma {:induction false} FirstWithId(ps: seq<PriorityEntry>, i: nat)
    requires i < |ps|
    requires forall j, k :: 0 <= j < k < |ps| ==> ps[j].id != ps[k].id
    ensures FindPriorityName(ps, ps[i].id) == Some(ps[i].name)
  {
    if i > 0 {
      assert ps[0].id != ps[i].id;
      FirstWithId(ps[1..], i - 1);
    }
  }

  /** The e-mail shown when the user has no row. */
  const UnknownEmail: string := "неизвестная почта"

  /** What `create_issue` is called with. */
  datatype IssueDraft = IssueDraft(summary: string, description: string, priority: string)

  /** The description sent to the tracker: the user's text, a blank line and
      the requester's e-mail. */
  function SignedDescription(description: string, email: string): (r: string)
    ensures |r| == |description| + |"\n\nЗаявка от "| + |email|
    ensures r[..|description|] == description
    ensures r[|description|..|r| - |email|] == "\n\nЗаявка от "
    ensures r[|r| - |email|..] == email
  {
    description + "\n\nЗаявка от " + email
  }
}
