/** The editor's append-only list of placed shapes (`State` in src/main.rs). */
module Canvas {
  import opened Shapes

  class State {
    var shapes: seq<Shape>

    /** `State::new`: nothing placed yet. */
    constructor ()
      ensures shapes == []
    {
      shapes := [];
    }

    /** `State::insert`: the shape goes last; every earlier shape stays where it was. */
    method Insert(shape: Shape)
      modifies this
      ensures shapes == old(shapes) + [shape]
      ensures |shapes| == |old(shapes)| + 1 && shapes[..|old(shapes)|] == old(shapes)
    {
      shapes := shapes + [shape];
    }
  }
}
