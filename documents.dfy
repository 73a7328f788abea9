/**
 * The values held in YAML frontmatter and JSON cache files, the dictionaries
 * built from them, and a markdown document with frontmatter (a "post").
 */
module Documents {
  import opened Text

  /** A frontmatter or JSON value: null, a number, a string or a list of strings. */
  datatype Value = Null | Num(n: real) | Str(s: string) | Strs(items: seq<string>)

  type Dict = map<string, Value>

  /** Python's `d.get(k, default)`. */
  function Get(d: Dict, k: string, default: Value): Value {
    if k in d then d[k] else default
  }

  /** Python truthiness of a value. */
  predicate Truthy(v: Value) {
    match v
    case Null => false
    case Num(n) => n != 0.0
    case Str(s) => s != []
    case Strs(xs) => xs != []
  }

  /** A string-valued entry read as text (`d.get(k) or ''` for text fields). */
  function TextOr(v: Value, default: string): string {
    if v.Str? && v.s != [] then v.s else default
  }

  /** `if key in src: dst[key] = src[key]`. */
  function CopyKey(dst: Dict, src: Dict, key: string): Dict {
    if key in src then dst[key := src[key]] else dst
  }

  /**
   * Copy into `dst` every key of `keys` that `src` holds (a chain of
   * `if key in src: dst[key] = src[key]` updates).
   */
  function CopyKeys(dst: Dict, src: Dict, keys: seq<string>): (r: Dict)
    decreases |keys|
    ensures forall k :: k in r <==> k in dst || (k in keys && k in src)
    ensures forall k :: k in r ==> r[k] == (if k in keys && k in src then src[k] else dst[k])
  {
    if keys == [] then dst
    else
      var r := CopyKeys(CopyKey(dst, src, keys[0]), src, keys[1..]);
      assert forall k :: k in keys <==> k == keys[0] || k in keys[1..];
      r
  }

  lemma CopyKeysUnfold(dst: Dict, src: Dict, keys: seq<string>)
    requires keys != []
    ensures CopyKeys(dst, src, keys) == CopyKeys(CopyKey(dst, src, keys[0]), src, keys[1..])
  {
  }

  /** Copying three keys is three single copies in a row. */
  lemma CopyThreeKeys(dst: Dict, src: Dict, a: string, b: string, c: string)
    ensures CopyKeys(dst, src, [a, b, c]) == CopyKey(CopyKey(CopyKey(dst, src, a), src, b), src, c)
  {
    CopyKeysUnfold(dst, src, [a, b, c]);
    assert [a, b, c][1..] == [b, c];
    CopyKeysUnfold(CopyKey(dst, src, a), src, [b, c]);
    assert [b, c][1..] == [c];
    CopyKeysUnfold(CopyKey(CopyKey(dst, src, a), src, b), src, [c]);
    assert [c][1..] == [];
  }

  /** A markdown document with YAML frontmatter, as loaded by the frontmatter library. */
  class Post {
    var metadata: Dict
    var content: string

    constructor (metadata: Dict, content: string)
      ensures this.metadata == metadata && this.content == content
    {
      this.metadata := metadata;
      this.content := content;
    }
  }
}
