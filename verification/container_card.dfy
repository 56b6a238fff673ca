/** What a container card derives from a container
    (src/components/ContainerCard.tsx): its display name, short ID, state
    badge, and which action buttons show and when they are disabled. */
module ContainerCard {
  import JsString

  /** The container fields the card's logic reads. */
  datatype Container = Container(id: string, names: seq<string>, state: string)

  /** The actions a card can ask for. */
  datatype Action = Start | Stop | Restart

  function ActionName(a: Action): string {
    match a
    case Start => "start"
    case Stop => "stop"
    case Restart => "restart"
  }

  const Unnamed: string := "Unnamed Container"

  /** `Names[0]?.replace(/^\//, '') || 'Unnamed Container'`: the first name
      without one leading slash, or the placeholder when that leaves nothing. */
  function DisplayName(names: seq<string>): (n: string)
    ensures n != ""
    ensures |names| == 0 ==> n == Unnamed
    ensures |names| > 0 && JsString.StartsWith(names[0], "/") && |names[0]| > 1 ==> n == names[0][1..]
    ensures |names| > 0 && !JsString.StartsWith(names[0], "/") && names[0] != "" ==> n == names[0]
    ensures |names| > 0 && (names[0] == "" || names[0] == "/") ==> n == Unnamed
    ensures n != Unnamed && |names| > 0 ==> JsString.StartsWith(names[0], "/" + n) || names[0] == n
  {
    if |names| == 0 then Unnamed
    else
      var stripped := if |names[0]| > 0 && names[0][0] == '/' then names[0][1..] else names[0];
      assert |names[0]| > 0 && names[0][0] == '/' ==> names[0] == "/" + stripped;
      if stripped == "" then Unnamed else stripped
  }

  /** Engine names carry one leading slash, and the card shows the name without it. */
  lemma DisplayNameDropsSlash(name: string, others: seq<string>)
    requires name != ""
    ensures DisplayName(["/" + name] + others) == name
  {
    assert ("/" + name)[1..] == name;
  }

  /** Only one slash is removed. */
  lemma DisplayNameKeepsSecondSlash()
    ensures DisplayName(["//db"]) == "/db"
  {
    assert "//db"[1..] == "/db";
  }

  /** A bare "/" or an empty first name falls back to the placeholder. */
  lemma DisplayNameOfEmptyName()
    ensures DisplayName(["/"]) == Unnamed && DisplayName([""]) == Unnamed
  {
    assert "/"[1..] == "";
  }

  /** `container.Id.slice(0, 12)`. */
  function ShortId(id: string): (r: string)
    ensures |r| == if |id| < 12 then |id| else 12
    ensures JsString.StartsWith(id, r)
  {
    if |id| < 12 then id else id[..12]
  }

  /** The colour of the state badge. */
  datatype Badge = Green | Yellow | Grey

  function StateBadge(state: string): (b: Badge)
    ensures b == Green <==> state == "running"
    ensures b == Yellow <==> state == "paused"
    ensures b == Grey <==> state != "running" && state != "paused"
  {
    if state == "running" then Green else if state == "paused" then Yellow else Grey
  }

  /** What a click on one of the card's controls asks of the page. */
  datatype CardEvent = ToggleSelect(id: string) | RunAction(id: string, action: Action)

  /** The checkbox asks to toggle this container. */
  function OnCheckbox(c: Container): (e: CardEvent)
    ensures e.ToggleSelect? && e.id == c.id
  {
    ToggleSelect(c.id)
  }

  datatype Button = Button(onClick: CardEvent, disabled: bool, text: string)

  predicate Shows(buttons: seq<Button>, a: Action) {
    exists k :: 0 <= k < |buttons| && buttons[k].onClick.RunAction? && buttons[k].onClick.action == a
  }

  /** The action buttons, left to right (the Logs link carries no action). */
  function ActionButtons(c: Container, isActioning: bool): (buttons: seq<Button>)
    ensures |buttons| == 2
    ensures Shows(buttons, Start) <==> c.state != "running"
    ensures Shows(buttons, Stop) <==> c.state == "running"
    ensures Shows(buttons, Restart)
    ensures forall k :: 0 <= k < |buttons| ==>
      buttons[k].onClick.RunAction? && buttons[k].onClick.id == c.id && (buttons[k].disabled <==> isActioning)
    ensures forall k :: 0 <= k < |buttons| ==>
      buttons[k].text == ButtonLabel(buttons[k].onClick.action, isActioning)
  {
    var first := if c.state != "running" then Start else Stop;
    var buttons := [Button(RunAction(c.id, first), isActioning, ButtonLabel(first, isActioning)),
                    Button(RunAction(c.id, Restart), isActioning, ButtonLabel(Restart, isActioning))];
    assert buttons[0].onClick.action == first;
    assert buttons[1].onClick.action == Restart;
    buttons
  }

  /** The badge and the buttons agree: the badge is green exactly when the card
      offers Stop, and otherwise the card offers Start. */
  lemma BadgeMatchesButtons(c: Container, isActioning: bool)
    ensures StateBadge(c.state) == Green <==> Shows(ActionButtons(c, isActioning), Stop)
    ensures StateBadge(c.state) != Green <==> Shows(ActionButtons(c, isActioning), Start)
  {
  }

  function ButtonLabel(a: Action, isActioning: bool): string {
    match a
    case Start => if isActioning then "Starting..." else "Start"
    case Stop => if isActioning then "Stopping..." else "Stop"
    case Restart => if isActioning then "Restarting..." else "Restart"
  }
}
