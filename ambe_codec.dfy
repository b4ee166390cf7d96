/**
 * `AudioCodecAmbe::create` and the keyed instance cache behind it. The
 * configuration options of an encoder or decoder (`AMBE_ENC_TYPE`,
 * `AMBE_DEC_TTY_DEVICE`, ...) are turned into codec options by dropping the
 * nine-character prefix. The TYPE option must name a known transport. One
 * codec instance is then shared by all users that ask with the same
 * options.
 */
module AmbeCodec {
  import opened Wrappers
  import opened Dv3k

  /** `AudioCodecAmbe::Options`, a `std::map<std::string, std::string>`. */
  type Options = map<string, string>

  const ENC_PREFIX: string := "AMBE_ENC_"
  const DEC_PREFIX: string := "AMBE_DEC_"
  const PREFIX_LEN: nat := 9
  const TYPE_KEY: string := "TYPE"
  const TYPE_AMBESERVER: string := "AMBESERVER"
  const TYPE_TTY: string := "TTY"
  const ERR_UNKNOWN_TYPE: string := "unknown Ambe codec TYPE"
  const ERR_UNSPECIFIED_TYPE: string := "unspecified Ambe codec TYPE"

  /** `sub` occurs in `s` at offset `i`. */
  predicate OccursAt(s: string, sub: string, i: nat) {
    i + |sub| <= |s| && s[i..i + |sub|] == sub
  }

  /** `s.find(sub) != std::string::npos`. */
  predicate Contains(s: string, sub: string) {
    exists i: nat :: i <= |s| && OccursAt(s, sub, i)
  }

  /** `s.erase(0, n)`: at most `n` characters go from the front. */
  function EraseFront(s: string, n: nat): string {
    if |s| <= n then "" else s[n..]
  }

  /** A key that mentions either prefix anywhere loses its first nine
      characters. */
  function RewriteKey(k: string): (r: string)
    ensures r == k || (|k| >= PREFIX_LEN && r == k[PREFIX_LEN..])
  {
    if Contains(k, ENC_PREFIX) || Contains(k, DEC_PREFIX) then EraseFront(k, PREFIX_LEN) else k
  }

  /** The prefix comes off a prefixed key; a key that mentions neither
      prefix is kept, and only such keys are kept. */
  lemma RewriteKeySpec(k: string, x: string)
    ensures RewriteKey(ENC_PREFIX + x) == x && RewriteKey(DEC_PREFIX + x) == x
    ensures RewriteKey(k) == k <==> !Contains(k, ENC_PREFIX) && !Contains(k, DEC_PREFIX)
  {
    assert OccursAt(ENC_PREFIX + x, ENC_PREFIX, 0);
    assert OccursAt(DEC_PREFIX + x, DEC_PREFIX, 0);
    if Contains(k, ENC_PREFIX) || Contains(k, DEC_PREFIX) {
      var i: nat :| i <= |k| && (OccursAt(k, ENC_PREFIX, i) || OccursAt(k, DEC_PREFIX, i));
      assert |RewriteKey(k)| < |k|;
    }
  }

  /** The erase counts from the front of the key, not from where the prefix
      was found: a prefix in the middle of a key cuts the key's own first
      nine characters. */
  lemma PrefixInMiddle()
    ensures RewriteKey("X_AMBE_ENC_TYPE") == "C_TYPE"
  {
    assert OccursAt("X_AMBE_ENC_TYPE", ENC_PREFIX, 2);
  }

  /** Keys in ascending `std::string` order, as a `std::map` iterates them. */
  predicate LexLess(a: string, b: string) decreases |a| {
    if a == [] then b != []
    else if b == [] then false
    else if a[0] != b[0] then a[0] < b[0]
    else LexLess(a[1..], b[1..])
  }

  predicate InMapOrder(entries: seq<(string, string)>) {
    forall i, j :: 0 <= i < j < |entries| ==> LexLess(entries[i].0, entries[j].0)
  }

  /** The codec options built from the configuration entries, visited in
      map order; when two keys rewrite to the same key the later one wins. */
  function Translate(entries: seq<(string, string)>): (t: Options)
    ensures forall e :: e in entries ==> RewriteKey(e.0) in t
    ensures entries != [] ==> t[RewriteKey(entries[|entries| - 1].0)] == entries[|entries| - 1].1
    decreases |entries|
  {
    if entries == [] then map[]
    else
      var last := entries[|entries| - 1];
      Translate(entries[..|entries| - 1])[RewriteKey(last.0) := last.1]
  }

  /** The codec options have exactly the rewritten keys. */
  lemma {:induction false} TranslateKeys(entries: seq<(string, string)>)
    ensures forall k :: k in Translate(entries) <==> exists i :: 0 <= i < |entries| && RewriteKey(entries[i].0) == k
    decreases |entries|
  {
    if entries != [] {
      var init := entries[..|entries| - 1];
      TranslateKeys(init);
      forall k | k in Translate(entries)
        ensures exists i :: 0 <= i < |entries| && RewriteKey(entries[i].0) == k
      {
        if k != RewriteKey(entries[|entries| - 1].0) {
          assert Translate(entries) == Translate(init)[RewriteKey(entries[|entries| - 1].0) := entries[|entries| - 1].1];
          assert k in Translate(init);
          var i :| 0 <= i < |init| && RewriteKey(init[i].0) == k;
          assert entries[i] == init[i];
        }
      }
      forall k | exists i :: 0 <= i < |entries| && RewriteKey(entries[i].0) == k
        ensures k in Translate(entries)
      {
        var i :| 0 <= i < |entries| && RewriteKey(entries[i].0) == k;
        if i < |init| {
          assert init[i] == entries[i];
        }
      }
    }
  }

  /** Each codec option holds the value of the last entry rewritten to it. */
  lemma {:induction false} TranslateValue(entries: seq<(string, string)>, i: nat)
    requires i < |entries|
    requires forall j :: i < j < |entries| ==> RewriteKey(entries[j].0) != RewriteKey(entries[i].0)
    ensures RewriteKey(entries[i].0) in Translate(entries)
    ensures Translate(entries)[RewriteKey(entries[i].0)] == entries[i].1
    decreases |entries|
  {
    if i < |entries| - 1 {
      var init := entries[..|entries| - 1];
      assert init[i] == entries[i];
      forall j | i < j < |init| ensures RewriteKey(init[j].0) != RewriteKey(init[i].0) {
        assert init[j] == entries[j];
      }
      TranslateValue(init, i);
    }
  }

  /** The loop of `create` that fills `t_options`. */
  method TranslateOptions(entries: seq<(string, string)>) returns (t: Options)
    ensures t == Translate(entries)
  {
    t := map[];
    var n := 0;
    while n < |entries|
      invariant 0 <= n <= |entries|
      invariant t == Translate(entries[..n])
    {
      assert entries[..n + 1][..n] == entries[..n];
      t := t[RewriteKey(entries[n].0) := entries[n].1];
      n := n + 1;
    }
    assert entries[..n] == entries;
  }

  /** The two containers of `create` whose iterators are compared. */
  datatype Container = ConfigOptions | CodecOptions

  /** A `std::map` iterator: at an entry, or at the end of one container. */
  datatype Iter = At(key: string) | End(container: Container)

  /** `m.find(k)` on the container `c`. */
  function Find(m: Options, c: Container, k: string): Iter {
    if k in m then At(k) else End(c)
  }

  /** The guard as written compares the iterator into the codec options with
      the end of the configuration options. */
  predicate TypeGuardAsWritten(t: Options)
    ensures TypeGuardAsWritten(t)
  {
    Find(t, CodecOptions, TYPE_KEY) != End(ConfigOptions)
  }

  /** That guard always passes, so without a TYPE option the end iterator
      of the codec options is dereferenced. */
  lemma TypeGuardAsWrittenPasses(t: Options)
    ensures TypeGuardAsWritten(t)
    ensures TYPE_KEY !in t ==> Find(t, CodecOptions, TYPE_KEY) == End(CodecOptions)
  {
  }

  /** The guard compared with the end of the container searched. */
  predicate TypeGuard(t: Options)
    ensures TypeGuard(t) <==> TYPE_KEY in t
  {
    Find(t, CodecOptions, TYPE_KEY) != End(CodecOptions)
  }

  lemma TypeGuardSpec(t: Options)
    ensures TypeGuard(t) <==> TYPE_KEY in t
    ensures TypeGuard(t) ==> Find(t, CodecOptions, TYPE_KEY) == At(TYPE_KEY)
  {
  }

  predicate ValidType(t: Options) {
    TYPE_KEY in t && (t[TYPE_KEY] == TYPE_AMBESERVER || t[TYPE_KEY] == TYPE_TTY)
  }

  /** The transport `AudioCodecAmbeDv3k::create` builds for a valid TYPE. */
  function KindOf(t: Options): Kind
    requires ValidType(t)
  {
    if t[TYPE_KEY] == TYPE_AMBESERVER then AmbeServer else Tty
  }

  /** The `Multiton` of DV3K codecs, keyed by their options. */
  class Registry {
    var instances: map<Options, Device>

    constructor ()
      ensures instances == map[]
    {
      instances := map[];
    }

    /** `getPtr`: the instance stored for `key`, or a new one that is stored
        under `key`. Creating one needs a valid TYPE: otherwise
        `AudioCodecAmbeDv3k::create` rethrows with no exception active,
        which terminates the program. */
    method GetPtr(key: Options) returns (d: Device)
      requires ValidType(key)
      modifies this`instances
      ensures key in old(instances) ==> d == old(instances)[key] && instances == old(instances)
      ensures key !in old(instances) ==>
                && fresh(d) && d.kind == KindOf(key) && d.state == Offline
                && instances == old(instances)[key := d]
    {
      if key in instances {
        return instances[key];
      }
      d := new Device(KindOf(key));
      instances := instances[key := d];
    }

    /** `destroy`: the instance for `key` goes, if there is one. */
    method Destroy(key: Options)
      modifies this`instances
      ensures instances == old(instances) - {key}
    {
      if key in instances {
        instances := instances - {key};
      }
    }

    /** `destroyAll`: every instance goes. */
    method DestroyAll()
      modifies this`instances
      ensures instances == map[]
    {
      instances := map[];
    }
  }

  /** `AudioCodecAmbe::create` with the TYPE check made on the codec options:
      the entries are rewritten, an absent or unknown TYPE is an error, and
      otherwise the shared instance for the codec options is returned. */
  method Create(reg: Registry, entries: seq<(string, string)>) returns (r: Result<Device, string>)
    requires InMapOrder(entries)
    modifies reg`instances
    ensures var t := Translate(entries);
            && (!TypeGuard(t) ==> r == Failure(ERR_UNSPECIFIED_TYPE) && reg.instances == old(reg.instances))
            && (TypeGuard(t) && !ValidType(t) ==> r == Failure(ERR_UNKNOWN_TYPE) && reg.instances == old(reg.instances))
            && (ValidType(t) ==>
                  && r.Success? && t in reg.instances && reg.instances[t] == r.value
                  && (t in old(reg.instances) ==> r.value == old(reg.instances)[t] && reg.instances == old(reg.instances))
                  && (t !in old(reg.instances) ==> fresh(r.value) && reg.instances == old(reg.instances)[t := r.value]))
  {
    var t := TranslateOptions(entries);
    TypeGuardSpec(t);
    if TYPE_KEY in t {
      if t[TYPE_KEY] == TYPE_AMBESERVER || t[TYPE_KEY] == TYPE_TTY {
        var d := reg.GetPtr(t);
        return Success(d);
      }
      return Failure(ERR_UNKNOWN_TYPE);
    }
    return Failure(ERR_UNSPECIFIED_TYPE);
  }
}
