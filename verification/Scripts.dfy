/** What callbacks do, call by call: a script for each of the next calls. Calls behind the
    last script do nothing. */
module Scripts {
  /** What the next callback does. */
  function Next<A>(scripts: seq<seq<A>>): seq<A> {
    if scripts == [] then [] else scripts[0]
  }

  /** The scripts of the calls after that. */
  function Later<A>(scripts: seq<seq<A>>): seq<seq<A>> {
    if scripts == [] then [] else scripts[1..]
  }
}
