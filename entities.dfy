/**
 * The three kinds of game object and their motion rules (Player.move,
 * Bullet.update, Alien.update). Each object is a mutable record; its shape is
 * given by Bounds().
 */
module Entities {
  import opened Geometry

  /** How far one held arrow key moves the player per tick. */
  const Step: real := 3.0

  /** The horizontal displacement the held arrow keys ask for in one tick. */
  function Delta(left: bool, right: bool): (d: real)
    ensures left && !right ==> d == -Step
    ensures right && !left ==> d == Step
    ensures left == right ==> d == 0.0
  {
    (if left then -Step else 0.0) + (if right then Step else 0.0)
  }

  /**
   * The player's x pulled back into [0, hi], where hi is the largest x that
   * keeps the player fully visible; 0 wins when hi is negative.
   */
  function Clamp(v: real, hi: real): (r: real)
    ensures r >= 0.0
    ensures hi >= 0.0 ==> r <= hi
    ensures 0.0 <= v <= hi ==> r == v
    ensures v < 0.0 ==> r == 0.0
    ensures v > hi ==> r == Max(0.0, hi)
  {
    Max(0.0, Min(hi, v))
  }

  class Player {
    var x: real
    var y: real
    const width: real := 40.0
    const height: real := 40.0

    constructor (x: real, y: real)
      ensures this.x == x && this.y == y
    {
      this.x := x;
      this.y := y;
    }

    function Bounds(): Rect
      reads this
    {
      Rect(x, y, width, height)
    }

    /** Applies the held arrow keys, then keeps the player on the canvas. */
    method Move(left: bool, right: bool, canvasWidth: real)
      modifies this
      ensures x == Clamp(old(x) + Delta(left, right), canvasWidth - width)
      ensures y == old(y)
      ensures canvasWidth >= width ==> 0.0 <= x <= canvasWidth - width
    {
      if left { x := x - Step; }
      if right { x := x + Step; }
      x := Clamp(x, canvasWidth - width);
    }
  }

  class Bullet {
    /** A bullet never moves sideways. */
    const x: real
    var y: real
    const width: real := 5.0
    const height: real := 10.0
    const speed: real := 8.0

    constructor (x: real, y: real)
      ensures this.x == x && this.y == y
    {
      this.x := x;
      this.y := y;
    }

    function Bounds(): Rect
      reads this
    {
      Rect(x, y, width, height)
    }

    /** One tick of flight: straight up by the bullet's fixed speed. */
    method Update()
      modifies this
      ensures y == old(y) - 8.0
    {
      y := y - speed;
    }
  }

  class Alien {
    /** An alien never moves sideways. */
    const x: real
    var y: real
    const width: real := 40.0
    const height: real := 40.0
    /** Fixed when the alien spawns; later escalation does not affect it. */
    const speed: real

    constructor (x: real, y: real, speed: real)
      ensures this.x == x && this.y == y && this.speed == speed
    {
      this.x := x;
      this.y := y;
      this.speed := speed;
    }

    function Bounds(): Rect
      reads this
    {
      Rect(x, y, width, height)
    }

    /** One tick of descent: down by the alien's own speed. */
    method Update()
      modifies this
      ensures y == old(y) + speed
    {
      y := y + speed;
    }
  }
}
