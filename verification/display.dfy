/**
 * The page served at "/" (`display_balls`): the ball colour chosen from the shared slot,
 * the fifty balls with their random positions, and the colour the page's script gives the
 * balls when a configuration text arrives over the websocket.
 */
module Display {
  import opened RustTypes
  import opened Configuration
  import opened Session

  /** A value of Rust's `u8`, as `rand::random::<u8>()` returns. */
  type Byte = x: int | 0 <= x < 256

  /** How many balls the page draws. */
  const BallCount: nat := 50

  datatype Ball = Ball(color: string, left: nat, top: nat)

  /** The colour of every ball: green exactly when a configuration is installed and its feature flag is on. */
  function BallColor(shared: Option<Config>): (color: string)
    ensures color == "green" <==> shared.Some? && shared.value.feature_flag
    ensures color == "blue" <==> !(shared.Some? && shared.value.feature_flag)
  {
    match shared
    case Some(c) => if c.feature_flag then "green" else "blue"
    case None => "blue"
  }

  /**
   * Reference definition of ball `i`: its colour, and its left and top percentages taken
   * from the `2i`-th and `(2i+1)`-th random bytes.
   */
  function BallAt(color: string, draw: nat -> Byte, i: nat): Ball {
    Ball(color, draw(2 * i) % 100, draw(2 * i + 1) % 100)
  }

  /**
   * The balls of the page. `draw(k)` stands for the `k`-th random byte the generator returns;
   * each ball takes two, left first.
   */
  method DisplayBalls(shared: Option<Config>, draw: nat -> Byte) returns (balls: seq<Ball>)
    ensures |balls| == BallCount
    ensures forall i :: 0 <= i < |balls| ==> balls[i].color == BallColor(shared)
    ensures forall i :: 0 <= i < |balls| ==> balls[i].left < 100 && balls[i].top < 100
    ensures forall i :: 0 <= i < |balls| ==> balls[i] == BallAt(BallColor(shared), draw, i)
  {
    var color := BallColor(shared);
    balls := [];
    var i := 0;
    while i < BallCount
      invariant 0 <= i <= BallCount && |balls| == i
      invariant forall j :: 0 <= j < i ==> balls[j] == BallAt(color, draw, j)
    {
      var left := draw(2 * i) % 100;
      var top := draw(2 * i + 1) % 100;
      balls := balls + [Ball(color, left, top)];
      i := i + 1;
    }
  }

  /**
   * The page script's colour for a received text: green exactly when the text decodes to a
   * configuration whose feature flag is on. The marker has no `feature_flag`, which the
   * script reads as false.
   */
  function PageColor(text: string): string {
    match Parse(text)
    case Some(c) => if c.feature_flag then "green" else "blue"
    case None => "blue"
  }

  /** A snapshot text turns the client's balls the colour the server would draw them for the same slot. */
  lemma SnapshotColorAgrees(shared: Option<Config>)
    ensures PageColor(CurrentConfigText(shared)) == BallColor(shared)
  {
    SnapshotDecodes(shared);
  }

  /** A relayed configuration turns the client's balls the colour the server draws once that configuration is installed. */
  lemma RelayColorAgrees(c: Config)
    ensures PageColor(Ser(c)) == BallColor(Some(c))
    ensures PageColor(Ser(c)) == (if c.feature_flag then "green" else "blue")
  {
    ParseSer(c);
  }
}
