/**
 The encrypted connection of a HomeKit accessory (pkg/hap/conn.go): every Write is cut into frames of at most 1024
 bytes, each sealed under a key of its direction and a counter as the nonce; every Read opens one frame.  The cipher is
 any pair of functions that undo each other, the key derivation any function.
 */
module HapConn {
  import opened Bytes
  import opened Wrappers

  const PACKET_SIZE_MAX := 0x400
  const OVERHEAD := 16
  const COUNTERS: nat := 0x1_0000_0000_0000_0000

  /** seal(key, nonce, plaintext, additional) and unseal(key, nonce, ciphertext, additional). */
  datatype Aead = Aead(seal: (Data, Data, Data, Data) -> Data, unseal: (Data, Data, Data, Data) -> Option<Data>)

  /** The only law assumed of the cipher. */
  ghost predicate Lawful(aead: Aead) {
    forall key, nonce, plain, extra ::
      var cipher := aead.seal(key, nonce, plain, extra);
      |cipher| == |plain| + 16 && aead.unseal(key, nonce, cipher, extra) == Some(plain)
  }

  /** binary.LittleEndian.PutUint64 */
  function NonceOf(cnt: nat): (nonce: Data)
    ensures |nonce| == 8
  {
    PutLeU32(cnt % 0x1_0000_0000) + PutLeU32(cnt / 0x1_0000_0000)
  }

  /** The least significant byte comes first. */
  lemma NonceInOrder()
    ensures NonceOf(0x0807_0605_0403_0201) == [1, 2, 3, 4, 5, 6, 7, 8]
  {
    assert PutLeU32(0x0403_0201) == [1, 2, 3, 4] && PutLeU32(0x0807_0605) == [5, 6, 7, 8];
    hide PutLeU32;
  }

  lemma NonceInjective(a: nat, b: nat)
    requires a < COUNTERS && b < COUNTERS && NonceOf(a) == NonceOf(b)
    ensures a == b
  {
    hide PutLeU32, LeU32;
    LeU32OfPut(a % 0x1_0000_0000, PutLeU32(a / 0x1_0000_0000));
    LeU32OfPut(b % 0x1_0000_0000, PutLeU32(b / 0x1_0000_0000));
    LeU32OfPut(a / 0x1_0000_0000, []);
    LeU32OfPut(b / 0x1_0000_0000, []);
    assert NonceOf(a)[4..] == PutLeU32(a / 0x1_0000_0000) + [];
    assert NonceOf(b)[4..] == PutLeU32(b / 0x1_0000_0000) + [];
  }

  /** One frame: the plaintext's size, which is also authenticated, and the sealed plaintext. */
  function Frame(aead: Aead, key: Data, cnt: nat, plain: Data): (frame: Data)
  {
    PutLeU16(|plain|) + aead.seal(key, NonceOf(cnt), plain, PutLeU16(|plain|))
  }

  /** The size in two bytes, low byte first, and the sealed text and its tag, bound to them. */
  lemma FrameLayout(aead: Aead, key: Data, cnt: nat, plain: Data)
    requires Lawful(aead) && |plain| < 0x1_0000
    ensures var frame := Frame(aead, key, cnt, plain);
            && |frame| == |plain| + 18
            && frame[0] as nat + 0x100 * frame[1] as nat == |plain|
            && frame[2..] == aead.seal(key, NonceOf(cnt), plain, frame[..2])
  {
    hide NonceOf;
    LeU16OfPut(|plain|, []);
    assert PutLeU16(|plain|) + [] == PutLeU16(|plain|);
    var sealed := aead.seal(key, NonceOf(cnt), plain, PutLeU16(|plain|));
    assert |sealed| == |plain| + 16 && aead.unseal(key, NonceOf(cnt), sealed, PutLeU16(|plain|)) == Some(plain);
  }

  /** The frames of `plains`, counting from cnt. */
  function Frames(aead: Aead, key: Data, cnt: nat, plains: seq<Data>): (wire: Data)
    decreases |plains|
  {
    if plains == [] then []
    else Frame(aead, key, cnt, plains[0]) + Frames(aead, key, (cnt + 1) % COUNTERS, plains[1..])
  }

  /** The plaintexts of the frames of one Write: full ones, and what is left. */
  function Cut(b: Data): (plains: seq<Data>)
    ensures Flat(plains) == b
    ensures forall k :: 0 <= k < |plains| ==> 0 < |plains[k]| <= 1024
    ensures forall k :: 0 <= k < |plains| - 1 ==> |plains[k]| == 1024
    decreases |b|
  {
    if b == [] then []
    else
      var size := Min(|b|, PACKET_SIZE_MAX);
      assert b == b[..size] + b[size..];
      [b[..size]] + Cut(b[size..])
  }

  datatype Outcome = TooSmall | Blocked | Got(plain: Option<Data>)

  class Conn {
    const aead: Aead
    var encryptKey: Data
    var decryptKey: Data
    var encryptCnt: nat
    var decryptCnt: nat
    var recv: nat
    var send: nat

    /** hkdf.Sha512 with two labels: the accessory writes what the controller reads. */
    constructor (aead: Aead, derive: (Data, string, string) -> Data, sharedKey: Data, isClient: bool)
      ensures this.aead == aead && encryptCnt == decryptCnt == recv == send == 0
      ensures encryptKey == EncryptKey(derive, sharedKey, isClient)
      ensures decryptKey == EncryptKey(derive, sharedKey, !isClient)
      ensures isClient ==>
                && encryptKey == derive(sharedKey, "Control-Salt", "Control-Write-Encryption-Key")
                && decryptKey == derive(sharedKey, "Control-Salt", "Control-Read-Encryption-Key")
      ensures !isClient ==>
                && encryptKey == derive(sharedKey, "Control-Salt", "Control-Read-Encryption-Key")
                && decryptKey == derive(sharedKey, "Control-Salt", "Control-Write-Encryption-Key")
    {
      this.aead := aead;
      var key1 := derive(sharedKey, "Control-Salt", "Control-Read-Encryption-Key");
      var key2 := derive(sharedKey, "Control-Salt", "Control-Write-Encryption-Key");
      if isClient {
        encryptKey, decryptKey := key2, key1;
      } else {
        encryptKey, decryptKey := key1, key2;
      }
      encryptCnt, decryptCnt, recv, send := 0, 0, 0, 0;
    }

    /** What it puts on the wire is the frames of the cut, and the counter counts them. */
    method Write(b: Data) returns (n: nat, wire: Data)
      requires encryptCnt < COUNTERS
      modifies this`encryptCnt, this`send
      ensures n == |b| && send == old(send) + n
      ensures wire == Frames(aead, encryptKey, old(encryptCnt), Cut(b))
      ensures encryptCnt == (old(encryptCnt) + |Cut(b)|) % COUNTERS
    {
      hide Frame, Frames, Cut, Flat, PutLeU16, NonceOf;
      var left := b;
      wire, n := [], 0;
      ghost var done: seq<Data> := [];
      NoFrames(aead, encryptKey, encryptCnt);
      assert done + Cut(left) == Cut(b);
      while |left| > 0
        invariant send == old(send) && n + |left| == |b|
        invariant done + Cut(left) == Cut(b)
        invariant encryptCnt == (old(encryptCnt) + |done|) % COUNTERS
        invariant wire == Frames(aead, encryptKey, old(encryptCnt), done)
      {
        var size := |left|;
        if size > PACKET_SIZE_MAX {
          size := PACKET_SIZE_MAX;
        }
        var verify := PutLeU16(size);
        wire := wire + (verify + aead.seal(encryptKey, NonceOf(encryptCnt), left[..size], verify));
        FrameIs(aead, encryptKey, encryptCnt, left[..size]);
        FramesAppend(aead, encryptKey, old(encryptCnt), done, left[..size]);
        CountNext(old(encryptCnt) + |done|);
        CutStep(left, done);
        encryptCnt := (encryptCnt + 1) % COUNTERS;
        done := done + [left[..size]];
        left := left[size..];
        n := n + size;
      }
      assert left == [];
      assert done == Cut(b);
      send := send + n;
    }

    /** One frame of the wire, when it has all arrived; `rest` is what stays on it. */
    method Read(capacity: nat, wire: Data) returns (outcome: Outcome, rest: Data)
      requires decryptCnt < COUNTERS
      modifies this`decryptCnt, this`recv
      ensures capacity < 1024 ==> outcome == TooSmall
      ensures capacity >= 1024 ==> outcome == Opened(aead, decryptKey, old(decryptCnt), wire)
      ensures !outcome.Got? ==> rest == wire && decryptCnt == old(decryptCnt) && recv == old(recv)
      ensures outcome.Got? ==>
                && rest == wire[2 + LeU16(wire) + OVERHEAD..] && decryptCnt == (old(decryptCnt) + 1) % COUNTERS
                && recv == old(recv) + LeU16(wire)
    {
      if capacity < PACKET_SIZE_MAX {
        return TooSmall, wire;
      }
      if |wire| < 2 {
        return Blocked, wire;
      }
      var n := LeU16(wire);
      if |wire| < 2 + n + OVERHEAD {
        return Blocked, wire;
      }
      var ciphertext := wire[2..2 + n + OVERHEAD];
      var nonce := NonceOf(decryptCnt);
      decryptCnt := (decryptCnt + 1) % COUNTERS;
      outcome := Got(aead.unseal(decryptKey, nonce, ciphertext, wire[..2]));
      recv := recv + n;
      rest := wire[2 + n + OVERHEAD..];
    }
  }

  function EncryptKey(derive: (Data, string, string) -> Data, sharedKey: Data, isClient: bool): (key: Data)
  {
    derive(sharedKey, "Control-Salt", if isClient then "Control-Write-Encryption-Key" else "Control-Read-Encryption-Key")
  }

  /** What a Read into a large enough buffer makes of the wire; it waits until a whole frame is there. */
  function Opened(aead: Aead, key: Data, cnt: nat, wire: Data): (outcome: Outcome)
    ensures outcome.Got? ==> |wire| >= 2 && |wire| >= 2 + LeU16(wire) + OVERHEAD
  {
    if |wire| < 2 || |wire| < 2 + LeU16(wire) + OVERHEAD then Blocked
    else Got(aead.unseal(key, NonceOf(cnt), wire[2..2 + LeU16(wire) + OVERHEAD], wire[..2]))
  }

  lemma {:induction false} FramesAppend(aead: Aead, key: Data, cnt: nat, plains: seq<Data>, plain: Data)
    requires cnt < COUNTERS
    ensures Frames(aead, key, cnt, plains + [plain]) ==
            Frames(aead, key, cnt, plains) + Frame(aead, key, (cnt + |plains|) % COUNTERS, plain)
    decreases |plains|
  {
    hide Frame;
    if plains == [] {
      assert plains + [plain] == [plain];
      assert [plain][1..] == [];
    } else {
      assert (plains + [plain])[1..] == plains[1..] + [plain];
      FramesAppend(aead, key, (cnt + 1) % COUNTERS, plains[1..], plain);
      CountOn(cnt, |plains| - 1);
    }
  }

  lemma NoFrames(aead: Aead, key: Data, cnt: nat)
    ensures Frames(aead, key, cnt, []) == [] && Cut([]) == []
  {
  }

  lemma FrameIs(aead: Aead, key: Data, cnt: nat, plain: Data)
    ensures Frame(aead, key, cnt, plain) == PutLeU16(|plain|) + aead.seal(key, NonceOf(cnt), plain, PutLeU16(|plain|))
  {
  }

  lemma CutStep(left: Data, done: seq<Data>)
    requires left != []
    ensures var size := Min(|left|, PACKET_SIZE_MAX);
            (done + [left[..size]]) + Cut(left[size..]) == done + Cut(left)
  {
    hide Flat;
    var size := Min(|left|, PACKET_SIZE_MAX);
    Regroup(done, [left[..size]], Cut(left[size..]));
  }

  lemma CountNext(n: nat)
    ensures (n % COUNTERS + 1) % COUNTERS == (n + 1) % COUNTERS
  {
  }

  lemma CountOn(cnt: nat, k: nat)
    requires cnt < COUNTERS
    ensures ((cnt + 1) % COUNTERS + k) % COUNTERS == (cnt + (k + 1)) % COUNTERS
  {
  }

  /** A Read of a wire that begins with a whole frame gives back its plaintext and leaves the rest. */
  lemma OpensFrame(aead: Aead, key: Data, cnt: nat, plain: Data, rest: Data)
    requires Lawful(aead) && |plain| < 0x1_0000
    ensures var wire := Frame(aead, key, cnt, plain) + rest;
            && Opened(aead, key, cnt, wire) == Got(Some(plain))
            && LeU16(wire) == |plain| && wire[2 + LeU16(wire) + OVERHEAD..] == rest
  {
    hide PutLeU16, LeU16, NonceOf;
    var verify := PutLeU16(|plain|);
    var cipher := aead.seal(key, NonceOf(cnt), plain, verify);
    assert |cipher| == |plain| + OVERHEAD && aead.unseal(key, NonceOf(cnt), cipher, verify) == Some(plain);
    var wire := Frame(aead, key, cnt, plain) + rest;
    LeU16OfPut(|plain|, cipher + rest);
    assert wire == verify + (cipher + rest);
    assert wire[2..2 + |plain| + OVERHEAD] == cipher && wire[..2] == verify;
  }

  // A client and a server over one shared key, with Writes cut into frames and Reads in any interleaving.

  /**
   One end: its keys and counters, what its current Write has yet to send, the bytes on their way to the other end, and
   as histories the bytes written and got, the plaintexts of the frames sent and read, and what was sealed under which
   key and nonce.
   */
  datatype End = End(
    encryptKey: Data, decryptKey: Data, encryptCnt: nat, decryptCnt: nat,
    pending: Data, wire: Data,
    written: Data, got: Data, sent: seq<Data>, received: seq<Data>, sealed: seq<(Data, Data)>)

  datatype Pair = Pair(client: End, server: End)

  datatype Event = Begin(client: bool, b: Data) | Emit(client: bool) | Read(client: bool)

  function NewEnd(derive: (Data, string, string) -> Data, sharedKey: Data, isClient: bool): (e: End)
  {
    End(EncryptKey(derive, sharedKey, isClient), EncryptKey(derive, sharedKey, !isClient), 0, 0,
        [], [], [], [], [], [], [])
  }

  /** Write takes its lock, so it begins when no other Write is on its way. */
  function BeginStep(e: End, b: Data): (f: End)
  {
    if e.pending == [] then e.(pending := b, written := e.written + b) else e
  }

  function EmitStep(aead: Aead, e: End): (f: End)
  {
    if e.pending == [] then e
    else
      var size := Min(|e.pending|, PACKET_SIZE_MAX);
      e.(pending := e.pending[size..], encryptCnt := (e.encryptCnt + 1) % COUNTERS,
         wire := e.wire + Frame(aead, e.encryptKey, e.encryptCnt, e.pending[..size]),
         sent := e.sent + [e.pending[..size]], sealed := e.sealed + [(e.encryptKey, NonceOf(e.encryptCnt))])
  }

  /** b reads from what a has put on the wire. */
  function ReadStep(aead: Aead, a: End, b: End): (r: (End, End))
  {
    match Opened(aead, b.decryptKey, b.decryptCnt, a.wire)
    case Got(plain) =>
      (a.(wire := a.wire[2 + LeU16(a.wire) + OVERHEAD..]),
       if plain == None then b.(decryptCnt := (b.decryptCnt + 1) % COUNTERS)
       else b.(decryptCnt := (b.decryptCnt + 1) % COUNTERS, got := b.got + plain.value, received := b.received + [plain.value]))
    case _ => (a, b)
  }

  function Apply(aead: Aead, p: Pair, e: Event): (q: Pair)
  {
    match e
    case Begin(client, b) => if client then p.(client := BeginStep(p.client, b)) else p.(server := BeginStep(p.server, b))
    case Emit(client) => if client then p.(client := EmitStep(aead, p.client)) else p.(server := EmitStep(aead, p.server))
    case Read(client) =>
      if client then
        var r := ReadStep(aead, p.server, p.client);
        Pair(r.1, r.0)
      else
        var r := ReadStep(aead, p.client, p.server);
        Pair(r.0, r.1)
  }

  function Run(aead: Aead, p: Pair, es: seq<Event>): (q: Pair)
    decreases |es|
  {
    if es == [] then p else Run(aead, Apply(aead, p, es[0]), es[1..])
  }

  /** One direction, from a to b. */
  ghost predicate Flows(aead: Aead, a: End, b: End) {
    && a.encryptKey == b.decryptKey
    && a.encryptCnt == |a.sent| % COUNTERS && b.decryptCnt == |b.received| % COUNTERS
    && b.received <= a.sent
    && a.wire == Frames(aead, a.encryptKey, b.decryptCnt, a.sent[|b.received|..])
    && a.written == Flat(a.sent) + a.pending && b.got == Flat(b.received)
    && (forall k :: 0 <= k < |a.sent| ==> 0 < |a.sent[k]| <= PACKET_SIZE_MAX)
    && |a.sealed| == |a.sent|
    && (forall k :: 0 <= k < |a.sent| ==> a.sealed[k] == (a.encryptKey, NonceOf(k % COUNTERS)))
  }

  lemma BeginFlows(aead: Aead, a: End, b: End, data: Data)
    requires Flows(aead, a, b)
    ensures Flows(aead, BeginStep(a, data), b)
  {
    hide Frames, Flat, NonceOf;
    if a.pending == [] {
      assert Flat(a.sent) + a.pending + data == Flat(a.sent) + data;
    }
  }

  lemma EmitFlows(aead: Aead, a: End, b: End)
    requires Flows(aead, a, b)
    ensures Flows(aead, EmitStep(aead, a), b)
  {
    hide Frames, Frame, Flat, NonceOf;
    if a.pending != [] {
      var size := Min(|a.pending|, PACKET_SIZE_MAX);
      var plain, c := a.pending[..size], EmitStep(aead, a);
      var n := |b.received|;
      assert c.sent[n..] == a.sent[n..] + [plain];
      FramesAppend(aead, a.encryptKey, b.decryptCnt, a.sent[n..], plain);
      CountBoth(n, |a.sent| - n);
      CountNext(|a.sent|);
      FlatConcat(a.sent, [plain]);
      FlatOne(plain);
      assert a.pending == plain + c.pending;
    }
  }

  lemma CountBoth(n: nat, k: nat)
    ensures (n % COUNTERS + k) % COUNTERS == (n + k) % COUNTERS
  {
  }

  /** A Read finds the next frame that was sent, if there is one, and it opens. */
  lemma ReadOpens(aead: Aead, a: End, b: End)
    requires Lawful(aead) && Flows(aead, a, b)
    ensures var n := |b.received|;
            if n == |a.sent| then ReadStep(aead, a, b) == (a, b)
            else
              var r := ReadStep(aead, a, b);
              && r.1 == b.(decryptCnt := (n + 1) % COUNTERS, got := b.got + a.sent[n], received := b.received + [a.sent[n]])
              && r.0 == a.(wire := Frames(aead, a.encryptKey, (n + 1) % COUNTERS, a.sent[n + 1..]))
  {
    hide Frame, Flat, NonceOf, Opened;
    var n := |b.received|;
    CountNext(n);
    if n == |a.sent| {
      NothingOpens(aead, b.decryptKey, b.decryptCnt);
      assert a.wire == [];
    } else {
      assert a.sent[n..][0] == a.sent[n] && a.sent[n..][1..] == a.sent[n + 1..];
      OpensFrame(aead, a.encryptKey, b.decryptCnt, a.sent[n], Frames(aead, a.encryptKey, (n + 1) % COUNTERS, a.sent[n + 1..]));
    }
  }

  lemma NothingOpens(aead: Aead, key: Data, cnt: nat)
    ensures Opened(aead, key, cnt, []) == Blocked
  {
  }

  lemma ReadFlows(aead: Aead, a: End, b: End)
    requires Lawful(aead) && Flows(aead, a, b)
    ensures var r := ReadStep(aead, a, b);
            Flows(aead, r.0, r.1)
  {
    hide Frames, Frame, Flat, NonceOf, ReadStep;
    ReadOpens(aead, a, b);
    var n := |b.received|;
    if n < |a.sent| {
      FlatConcat(b.received, [a.sent[n]]);
      FlatOne(a.sent[n]);
    }
  }

  /** The other direction's state is not touched by a Read, nor either end's writing by the other's. */
  lemma ReadKeepsOther(aead: Aead, a: End, b: End)
    requires Flows(aead, b, a)
    ensures var r := ReadStep(aead, a, b);
            Flows(aead, r.1, r.0)
  {
    hide Opened, Frames, Flat;
  }

  lemma WriteKeepsOther(aead: Aead, a: End, b: End, data: Data)
    requires Flows(aead, b, a)
    ensures Flows(aead, b, BeginStep(a, data)) && Flows(aead, b, EmitStep(aead, a))
  {
    hide Frames, Flat;
  }

  ghost predicate Inv(aead: Aead, p: Pair) {
    Flows(aead, p.client, p.server) && Flows(aead, p.server, p.client)
  }

  lemma ApplyKeeps(aead: Aead, p: Pair, e: Event)
    requires Lawful(aead) && Inv(aead, p)
    ensures Inv(aead, Apply(aead, p, e))
  {
    hide Flows, BeginStep, EmitStep, ReadStep, Lawful;
    match e
    case Begin(client, b) =>
      var x, y := if client then p.client else p.server, if client then p.server else p.client;
      BeginFlows(aead, x, y, b);
      WriteKeepsOther(aead, x, y, b);
    case Emit(client) =>
      var x, y := if client then p.client else p.server, if client then p.server else p.client;
      EmitFlows(aead, x, y);
      WriteKeepsOther(aead, x, y, []);
    case Read(client) =>
      var x, y := if client then p.server else p.client, if client then p.client else p.server;
      ReadFlows(aead, x, y);
      ReadKeepsOther(aead, x, y);
  }

  lemma {:induction false} RunKeeps(aead: Aead, p: Pair, es: seq<Event>)
    requires Lawful(aead) && Inv(aead, p)
    ensures Inv(aead, Run(aead, p, es))
    decreases |es|
  {
    hide Inv, Apply, Lawful;
    if es != [] {
      ApplyKeeps(aead, p, es[0]);
      RunKeeps(aead, Apply(aead, p, es[0]), es[1..]);
    }
  }

  function Start(derive: (Data, string, string) -> Data, sharedKey: Data): (p: Pair)
  {
    Pair(NewEnd(derive, sharedKey, true), NewEnd(derive, sharedKey, false))
  }

  lemma {:induction false} FlatPrefix(a: seq<Data>, b: seq<Data>)
    requires a <= b
    ensures Flat(a) <= Flat(b)
  {
    assert b == a + b[|a|..];
    FlatConcat(a, b[|a|..]);
  }

  /**
   In every interleaving what an end got is a prefix of what the other end wrote, and the counters and frames are as
   Flows says: in step with the frames sent and read, each frame of 1 to 1024 bytes.
   */
  lemma EveryRun(aead: Aead, derive: (Data, string, string) -> Data, sharedKey: Data, es: seq<Event>)
    requires Lawful(aead)
    ensures var p := Run(aead, Start(derive, sharedKey), es);
            && Inv(aead, p)
            && p.server.got <= p.client.written && p.client.got <= p.server.written
  {
    hide Frames, Run, Lawful;
    var p := Start(derive, sharedKey);
    NoFrames(aead, p.client.encryptKey, 0);
    NoFrames(aead, p.server.encryptKey, 0);
    assert Flows(aead, p.client, p.server) && Flows(aead, p.server, p.client);
    RunKeeps(aead, p, es);
    var q := Run(aead, p, es);
    FlatPrefix(q.server.received, q.client.sent);
    FlatPrefix(q.client.received, q.server.sent);
  }

  ghost predicate NoneTwice(sealed: seq<(Data, Data)>) {
    forall i, j :: 0 <= i < j < |sealed| ==> sealed[i] != sealed[j]
  }

  lemma SealedOnce(aead: Aead, a: End, b: End)
    requires Flows(aead, a, b)
    ensures NoneTwice(a.sealed) <==> |a.sealed| <= COUNTERS
  {
    hide Frames, Flat, NonceOf;
    if |a.sealed| <= COUNTERS {
      forall i, j | 0 <= i < j < |a.sealed| ensures a.sealed[i] != a.sealed[j] {
        if a.sealed[i] == a.sealed[j] {
          assert NonceOf(i) == NonceOf(j);
          NonceInjective(i, j);
        }
      }
    } else {
      assert a.sealed[0] == a.sealed[COUNTERS];
    }
  }

  lemma {:induction false} KeysStay(aead: Aead, p: Pair, es: seq<Event>)
    ensures var q := Run(aead, p, es);
            q.client.encryptKey == p.client.encryptKey && q.server.encryptKey == p.server.encryptKey
    decreases |es|
  {
    if es != [] {
      KeysStay(aead, Apply(aead, p, es[0]), es[1..]);
    }
  }

  /**
   No key is used twice with one nonce, in a direction just as long as its counter has not come round, and never across
   the directions provided the derivation tells the two labels apart.
   */
  lemma NoncesAreFresh(aead: Aead, derive: (Data, string, string) -> Data, sharedKey: Data, es: seq<Event>)
    requires Lawful(aead)
    ensures var p := Run(aead, Start(derive, sharedKey), es);
            && (NoneTwice(p.client.sealed) <==> |p.client.sent| <= COUNTERS)
            && (NoneTwice(p.server.sealed) <==> |p.server.sent| <= COUNTERS)
            && (EncryptKey(derive, sharedKey, true) != EncryptKey(derive, sharedKey, false) ==>
                  forall i, j :: 0 <= i < |p.client.sealed| && 0 <= j < |p.server.sealed| ==>
                    p.client.sealed[i] != p.server.sealed[j])
  {
    hide Run, Lawful, Frames, Flat, NoneTwice;
    EveryRun(aead, derive, sharedKey, es);
    KeysStay(aead, Start(derive, sharedKey), es);
    var p := Run(aead, Start(derive, sharedKey), es);
    SealedOnce(aead, p.client, p.server);
    SealedOnce(aead, p.server, p.client);
  }

  function Emits(aead: Aead, e: End, n: nat): (f: End)
    decreases n
  {
    if n == 0 then e else Emits(aead, EmitStep(aead, e), n - 1)
  }

  /** A Write that nobody interrupts is these steps: one for each frame of its cut. */
  lemma {:induction false} WriteIsItsSteps(aead: Aead, e: End)
    requires e.encryptCnt < COUNTERS
    ensures var n := |Cut(e.pending)|;
            var f := Emits(aead, e, n);
            && f.pending == [] && f.encryptCnt == (e.encryptCnt + n) % COUNTERS
            && f.wire == e.wire + Frames(aead, e.encryptKey, e.encryptCnt, Cut(e.pending))
            && f.sent == e.sent + Cut(e.pending)
    decreases |e.pending|
  {
    hide Frame, Frames, Cut, EmitStep;
    NoFrames(aead, e.encryptKey, e.encryptCnt);
    if e.pending != [] {
      var f := EmitStep(aead, e);
      EmitCuts(aead, e);
      WriteIsItsSteps(aead, f);
      CountOn(e.encryptCnt, |Cut(f.pending)|);
    }
  }

  lemma EmitCuts(aead: Aead, e: End)
    requires e.pending != []
    ensures var f := EmitStep(aead, e);
            && |f.pending| < |e.pending| && |Cut(e.pending)| == 1 + |Cut(f.pending)|
            && f.encryptKey == e.encryptKey && f.encryptCnt == (e.encryptCnt + 1) % COUNTERS
            && e.wire + Frames(aead, e.encryptKey, e.encryptCnt, Cut(e.pending)) ==
               f.wire + Frames(aead, e.encryptKey, f.encryptCnt, Cut(f.pending))
            && e.sent + Cut(e.pending) == f.sent + Cut(f.pending)
  {
    hide Frame, Frames, Flat, NonceOf, Cut;
    var size := Min(|e.pending|, PACKET_SIZE_MAX);
    var plain, rest := e.pending[..size], Cut(e.pending[size..]);
    CutStep(e.pending, []);
    assert Cut(e.pending) == [plain] + rest by {
      assert [] + [plain] == [plain];
      assert [] + Cut(e.pending) == Cut(e.pending);
    }
    FramesCons(aead, e.encryptKey, e.encryptCnt, plain, rest);
    Regroup(e.wire, Frame(aead, e.encryptKey, e.encryptCnt, plain),
            Frames(aead, e.encryptKey, (e.encryptCnt + 1) % COUNTERS, rest));
    Regroup(e.sent, [plain], rest);
  }

  lemma FramesCons(aead: Aead, key: Data, cnt: nat, plain: Data, rest: seq<Data>)
    ensures Frames(aead, key, cnt, [plain] + rest) ==
            Frame(aead, key, cnt, plain) + Frames(aead, key, (cnt + 1) % COUNTERS, rest)
  {
    hide Frame;
    assert ([plain] + rest)[1..] == rest;
  }
}
