/**
 * The Python values that flow through a job-posting dictionary, and the dictionary
 * itself.  A posting is a `dict` that the scraper builds, that enrichment mutates in
 * place and that the applicator reads with `dict.get`.
 */
module PyValues {
  import opened Options
  import opened Text

  /** A value stored under a key of a posting dictionary: a `str`, an `int`, a `bool`,
    * a `datetime` (as a timestamp) or `None`. */
  datatype Value = Str(s: string) | Int(i: int) | Bool(b: bool) | Time(t: int) | Null

  type Fields = map<string, Value>

  /** `d.get(k)`: the stored value, or `None` for a missing key. */
  function Get(d: Fields, k: string): Value {
    if k in d then d[k] else Null
  }

  /** Python truthiness (`if v:`): empty strings, zero and `None` are false. */
  predicate Truthy(v: Value) {
    match v
    case Str(s) => s != ""
    case Int(i) => i != 0
    case Bool(b) => b
    case Time(_) => true
    case Null => false
  }

  /** `str(v)`, which is also what an f-string interpolates.  A `datetime` is shown
    * here as its timestamp, not in `str(datetime)`'s calendar form; the only time a
    * posting holds is `posted_date`, and nothing renders it. */
  function Render(v: Value): string {
    match v
    case Str(s) => s
    case Int(i) => IntToString(i)
    case Bool(b) => if b then "True" else "False"
    case Time(t) => IntToString(t)
    case Null => "None"
  }

  /** What a nullable `String` column holds after assigning `v` to it. */
  function AsColumn(v: Value): Option<string> {
    match v
    case Null => None
    case Str(s) => Some(s)
    case _ => Some(Render(v))
  }

  /** `None` becomes `None`; a string becomes a `str`. */
  function FromOption(o: Option<string>): Value {
    match o
    case None => Null
    case Some(s) => Str(s)
  }

  /** A posting dictionary, an object that several list slots may share and that
    * enrichment updates in place. */
  class JobData {
    var fields: Fields

    constructor (f: Fields)
      ensures fields == f
    {
      fields := f;
    }
  }
}
