/** The event reaction of the `ui` loop in src/main.rs: keys choose the drawing mode, a left-button
    press and release place a shape, a resize records the terminal size. */
module Editor {
  import opened Shapes
  import opened Canvas
  import opened Render

  /** `DrawMode`: which shape the next completed drag places. */
  datatype DrawMode = BoxMode | BorderMode | LineMode | ArrowMode

  /** The already-decoded terminal events the loop reacts to. */
  datatype KeyCode = Char(c: char) | Esc | OtherKey
  datatype MouseButton = Left | Right | Middle
  datatype MouseEventKind = Down(button: MouseButton) | Up(button: MouseButton) | Drag(button: MouseButton) | Moved | Scroll
  datatype Event =
    | Key(code: KeyCode)
    | Mouse(kind: MouseEventKind, column: U16, row: U16)
    | Resize(columns: U16, rows: U16)
    | OtherEvent

  /** The variables of `ui` that events update, with the shapes placed so far. */
  datatype Session = Session(mode: DrawMode, dragStart: Option<Point>, height: U16, width: U16, shapes: seq<Shape>)

  /** Reacting to one event either leaves the loop or continues with a new session. */
  datatype Reaction = Quit | Continue(next: Session)

  /** The state on entry to the loop: box mode, no drag, no shapes; `terminal::size()` yields
      (columns, rows), which the source binds to `theight` and `twith` in that order. */
  function InitialSession(columns: U16, rows: U16): (s: Session)
    ensures s.mode == BoxMode && s.dragStart == None && s.shapes == []
    ensures s.height == columns && s.width == rows
  {
    Session(BoxMode, None, columns, rows, [])
  }

  /** The shape a release places in each mode: boxes and borders are normalised, lines and arrows keep the raw points. */
  function ShapeFor(mode: DrawMode, start: Point, end: Point): Shape {
    match mode
    case BoxMode => Shape.Box(NewRectangle(start, end))
    case ArrowMode => Shape.Arrow(NewLine(start, end))
    case LineMode => Shape.Line(NewLine(start, end))
    case BorderMode => Shape.Border(NewRectangle(start, end))
  }

  /** One event of the inner `while poll(..)` loop. */
  function React(s: Session, ev: Event): Reaction {
    match ev
    case Key(Char(c)) =>
      if c == 'b' then Continue(s.(mode := BorderMode))
      else if c == 's' then Continue(s.(mode := BoxMode))
      else if c == 'l' then Continue(s.(mode := LineMode))
      else if c == 'a' then Continue(s.(mode := ArrowMode))
      else if c == 'q' then Quit
      else Continue(s)
    case Key(Esc) => Quit
    case Key(OtherKey) => Continue(s)
    case Mouse(Down(Left), column, row) => Continue(s.(dragStart := Some(Point(column, row, None))))
    case Mouse(Up(Left), column, row) =>
      (match s.dragStart
       case None => Continue(s)
       case Some(start) => Continue(s.(shapes := s.shapes + [ShapeFor(s.mode, start, Point(column, row, None))])))
    case Mouse(_, _, _) => Continue(s)
    case Resize(nw, nh) => Continue(s.(height := nh, width := nw))
    case OtherEvent => Continue(s)
  }

  /** A batch of events handled in order, stopping at the first that quits. */
  function Run(s: Session, events: seq<Event>): Reaction
    decreases |events|
  {
    if |events| == 0 then Continue(s)
    else
      match React(s, events[0])
      case Quit => Quit
      case Continue(next) => Run(next, events[1..])
  }

  /** Key bindings: b, s, l, a pick a mode; Esc and q quit; every other key changes nothing. */
  lemma KeyBindings(s: Session, c: char)
    ensures React(s, Key(Char('b'))) == Continue(s.(mode := BorderMode))
    ensures React(s, Key(Char('s'))) == Continue(s.(mode := BoxMode))
    ensures React(s, Key(Char('l'))) == Continue(s.(mode := LineMode))
    ensures React(s, Key(Char('a'))) == Continue(s.(mode := ArrowMode))
    ensures React(s, Key(Esc)) == Quit && React(s, Key(Char('q'))) == Quit
    ensures c !in {'b', 's', 'l', 'a', 'q'} ==> React(s, Key(Char(c))) == Continue(s)
    ensures React(s, Key(OtherKey)) == Continue(s)
  {
  }

  /** A left press records where the drag starts, with no glyph. */
  lemma PressRecordsStart(s: Session, column: U16, row: U16)
    ensures React(s, Mouse(Down(Left), column, row)) == Continue(s.(dragStart := Some(Point(column, row, None))))
  {
  }

  /** A left release places one shape when a drag started and none otherwise; the drag start is not cleared. */
  lemma ReleasePlacesShape(s: Session, column: U16, row: U16)
    ensures React(s, Mouse(Up(Left), column, row)).Continue?
    ensures var n := React(s, Mouse(Up(Left), column, row)).next;
      n.mode == s.mode && n.dragStart == s.dragStart && n.height == s.height && n.width == s.width &&
      (s.dragStart == None ==> n.shapes == s.shapes) &&
      (s.dragStart.Some? ==>
        var start, end := s.dragStart.value, Point(column, row, None);
        |n.shapes| == |s.shapes| + 1 && n.shapes[..|s.shapes|] == s.shapes &&
        n.shapes[|s.shapes|] == (if s.mode in {BoxMode, BorderMode}
          then (if s.mode == BoxMode then Shape.Box(NewRectangle(start, end)) else Shape.Border(NewRectangle(start, end)))
          else (if s.mode == LineMode then Shape.Line(LineShape(start, end)) else Shape.Arrow(LineShape(start, end)))))
  {
  }

  /** Because the drag start survives a release, a second release places a second shape from the same start. */
  lemma {:induction false} RepeatedRelease(s: Session, c1: U16, r1: U16, c2: U16, r2: U16)
    requires s.dragStart.Some?
    ensures var start := s.dragStart.value;
      Run(s, [Mouse(Up(Left), c1, r1), Mouse(Up(Left), c2, r2)]) ==
      Continue(s.(shapes := s.shapes + [ShapeFor(s.mode, start, Point(c1, r1, None)), ShapeFor(s.mode, start, Point(c2, r2, None))]))
  {
    var start := s.dragStart.value;
    var evs := [Mouse(Up(Left), c1, r1), Mouse(Up(Left), c2, r2)];
    var n1 := s.(shapes := s.shapes + [ShapeFor(s.mode, start, Point(c1, r1, None))]);
    var n2 := n1.(shapes := n1.shapes + [ShapeFor(s.mode, start, Point(c2, r2, None))]);
    assert React(s, evs[0]) == Continue(n1);
    assert evs[1..] == [Mouse(Up(Left), c2, r2)];
    assert React(n1, evs[1..][0]) == Continue(n2);
    assert evs[1..][1..] == [];
    assert Run(s, evs) == Run(n2, []);
    assert n2.shapes == s.shapes + [ShapeFor(s.mode, start, Point(c1, r1, None)), ShapeFor(s.mode, start, Point(c2, r2, None))];
  }

  /** A resize stores the new row count as `theight` and the column count as `twith`; nothing else changes. */
  lemma ResizeSetsDimensions(s: Session, columns: U16, rows: U16)
    ensures React(s, Resize(columns, rows)) == Continue(s.(height := rows, width := columns))
  {
  }

  /** Drags, other buttons, motion, scrolling and every other event leave the session as it was. */
  lemma OtherEventsIgnored(s: Session, kind: MouseEventKind, column: U16, row: U16)
    requires kind != Down(Left) && kind != Up(Left)
    ensures React(s, Mouse(kind, column, row)) == Continue(s)
    ensures React(s, OtherEvent) == Continue(s)
  {
  }

  /** Shapes are only ever appended, at most one per event. */
  lemma {:induction false} RunAppendsOnly(s: Session, events: seq<Event>)
    ensures Run(s, events).Continue? ==>
      var n := Run(s, events).next;
      |s.shapes| <= |n.shapes| <= |s.shapes| + |events| && n.shapes[..|s.shapes|] == s.shapes
    decreases |events|
  {
    if |events| > 0 {
      match React(s, events[0])
      case Quit =>
      case Continue(next) =>
        assert |s.shapes| <= |next.shapes| <= |s.shapes| + 1 && next.shapes[..|s.shapes|] == s.shapes;
        RunAppendsOnly(next, events[1..]);
        if Run(s, events).Continue? {
          var n := Run(s, events).next;
          assert n.shapes[..|next.shapes|] == next.shapes;
          assert n.shapes[..|s.shapes|] == next.shapes[..|s.shapes|];
        }
    }
  }

  /** Filled boxes placed through the editor are all empty. */
  predicate BoxesInvisible(shapes: seq<Shape>) {
    forall i :: 0 <= i < |shapes| && shapes[i].Box? ==> BoxPoints(shapes[i].rect) == []
  }

  /** No sequence of events from a session whose boxes are empty places a box that shows. */
  lemma {:induction false} RunKeepsBoxesInvisible(s: Session, events: seq<Event>)
    requires BoxesInvisible(s.shapes)
    ensures Run(s, events).Continue? ==> BoxesInvisible(Run(s, events).next.shapes)
    decreases |events|
  {
    if |events| > 0 {
      match React(s, events[0])
      case Quit =>
      case Continue(next) =>
        assert BoxesInvisible(next.shapes) by {
          if next.shapes != s.shapes {
            var start := s.dragStart.value;
            var end := Point(events[0].column, events[0].row, None);
            assert next.shapes == s.shapes + [ShapeFor(s.mode, start, end)];
            BoxOfNewRectangleIsEmpty(start, end);
          }
        }
        RunKeepsBoxesInvisible(next, events[1..]);
    }
  }

  /** The loop's variables, its shape list and the terminal it draws on. */
  class Editor {
    var mode: DrawMode
    var dragStart: Option<Point>
    var height: U16
    var width: U16
    const state: State
    const screen: Screen

    /** The session these fields hold. */
    function Current(): Session
      reads this, state
    {
      Session(mode, dragStart, height, width, state.shapes)
    }

    /** Entry to `ui`, given the terminal size as (columns, rows). */
    constructor (columns: U16, rows: U16)
      ensures Current() == InitialSession(columns, rows)
      ensures fresh(state) && fresh(screen)
      ensures state.shapes == [] && screen.cells == map[]
    {
      mode := BoxMode;
      dragStart := None;
      height, width := columns, rows;
      state := new State();
      screen := new Screen();
    }

    /** One arm of the `match read()?`; `quit` is the `break 'ui`. */
    method HandleEvent(ev: Event) returns (quit: bool)
      modifies this, state
      ensures quit <==> React(old(Current()), ev) == Quit
      ensures quit ==> Current() == old(Current())
      ensures !quit ==> React(old(Current()), ev) == Continue(Current())
    {
      quit := false;
      match ev {
        case Key(code) =>
          match code {
            case Char(c) =>
              if c == 'b' {
                mode := BorderMode;
              } else if c == 's' {
                mode := BoxMode;
              } else if c == 'l' {
                mode := LineMode;
              } else if c == 'a' {
                mode := ArrowMode;
              } else if c == 'q' {
                quit := true;
              }
            case Esc =>
              quit := true;
            case OtherKey =>
          }
        case Mouse(kind, column, row) =>
          if kind == Down(Left) {
            dragStart := Some(Point(column, row, None));
          } else if kind == Up(Left) && dragStart.Some? {
            var start := dragStart.value;
            var end := Point(column, row, None);
            var shape: Shape;
            match mode {
              case BoxMode => shape := Shape.Box(NewRectangle(start, end));
              case ArrowMode => shape := Shape.Arrow(NewLine(start, end));
              case LineMode => shape := Shape.Line(NewLine(start, end));
              case BorderMode => shape := Shape.Border(NewRectangle(start, end));
            }
            state.Insert(shape);
          }
        case Resize(nw, nh) =>
          height := nh;
          width := nw;
        case OtherEvent =>
      }
    }

    /** One pass of the `'ui` loop: handle the pending events in order, then clear the
        terminal and draw every shape, unless an event quit first. */
    method Frame(events: seq<Event>) returns (quit: bool)
      modifies this, state, screen
      ensures quit <==> Run(old(Current()), events) == Quit
      ensures !quit ==> Run(old(Current()), events) == Continue(Current())
      ensures !quit ==> screen.cells == PaintShapes(map[], state.shapes)
    {
      var i := 0;
      while i < |events|
        invariant 0 <= i <= |events|
        invariant Run(old(Current()), events) == Run(Current(), events[i..])
      {
        assert events[i..][0] == events[i] && events[i..][1..] == events[i + 1..];
        quit := HandleEvent(events[i]);
        if quit {
          return;
        }
        i := i + 1;
      }
      screen.Clear();
      screen.RenderCanvas(state);
      quit := false;
    }
  }
}
