/**
 * Room ids: the canonical text of a random UUID, dashes removed, cut to
 * eight characters and lower-cased. The UUID is a parameter.
 */
module CreateRoomService {
  import opened Strings

  predicate IsLowerHex(c: char) { '0' <= c <= '9' || 'a' <= c <= 'f' }

  /** java.util.UUID.toString: 8-4-4-4-12 lower-case hex digits joined by '-'. */
  predicate IsUuidString(s: string)
  {
    && |s| == 36
    && (forall i :: 0 <= i < 36 ==> (s[i] == '-' <==> i in {8, 13, 18, 23}))
    && (forall i :: 0 <= i < 36 && s[i] != '-' ==> IsLowerHex(s[i]))
  }

  /** Removing a one-character target distributes over concatenation. */
  lemma {:induction false} ReplaceCharAppend(p: string, q: string, c: char)
    ensures ReplaceAll(p + q, [c], "") == ReplaceAll(p, [c], "") + ReplaceAll(q, [c], "")
    decreases |p|
  {
    if p == [] {
      assert p + q == q;
      assert ReplaceAll(p, [c], "") == [];
    } else {
      assert (p + q)[1..] == p[1..] + q;
      assert (p + q)[..1] == p[..1] == [p[0]];
      ReplaceCharAppend(p[1..], q, c);
      if p[0] == c {
        assert ReplaceAll(p + q, [c], "") == ReplaceAll(p[1..] + q, [c], "");
        assert ReplaceAll(p, [c], "") == ReplaceAll(p[1..], [c], "");
      } else {
        assert ReplaceAll(p + q, [c], "") == [p[0]] + ReplaceAll(p[1..] + q, [c], "");
        assert ReplaceAll(p, [c], "") == [p[0]] + ReplaceAll(p[1..], [c], "");
      }
    }
  }

  lemma NoDashInFirstGroup(uuid: string)
    requires IsUuidString(uuid)
    ensures !Contains(uuid[..8], "-")
  {
    forall i | 0 <= i <= 8 - 1 ensures !OccursAt(uuid[..8], "-", i) {
      assert i !in {8, 13, 18, 23};
      assert uuid[i] != '-';
      assert uuid[..8][i..i + 1] == [uuid[i]];
    }
  }

  /** generateRoomId for the UUID the random source produced. */
  function GenerateRoomId(uuid: string): (r: string)
    requires IsUuidString(uuid)
    ensures |r| == 8
    ensures r == uuid[..8]
    ensures forall i :: 0 <= i < |r| ==> r[i] != '-' && IsLowerHex(r[i])
  {
    GenerateRoomIdSteps(uuid);
    ToLower(ReplaceAll(uuid, "-", "")[..8])
  }

  lemma GenerateRoomIdSteps(uuid: string)
    requires IsUuidString(uuid)
    ensures |ReplaceAll(uuid, "-", "")| >= 8
    ensures ToLower(ReplaceAll(uuid, "-", "")[..8]) == uuid[..8]
  {
    var head, tail := uuid[..8], uuid[8..];
    assert uuid == head + tail;
    ReplaceCharAppend(head, tail, '-');
    NoDashInFirstGroup(uuid);
    ReplaceAllAbsent(head, "-", "");
    var stripped := ReplaceAll(uuid, "-", "");
    assert stripped[..8] == head;
    var lower := ToLower(head);
    forall i | 0 <= i < 8 ensures lower[i] == head[i] {
      assert IsLowerHex(uuid[i]);
    }
  }

  /** Two UUIDs give the same room id exactly when their first groups agree. */
  lemma RoomIdCollision(u1: string, u2: string)
    requires IsUuidString(u1) && IsUuidString(u2)
    ensures GenerateRoomId(u1) == GenerateRoomId(u2) <==> u1[..8] == u2[..8]
  {
  }
}
