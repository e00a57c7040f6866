/**
 Room names carry the tenant: the backend mints `t_{tenant}_{random}`, and backend and agent each read it back, by
 the last underscore. Tenant ids hold underscores of their own; the random suffix is twelve hexadecimal digits.
 */
module RoomCodec {
  import opened Prelude
  import opened Text

  predicate IsSuffix(s: string) {
    |s| == 12 && forall i :: 0 <= i < |s| ==> '0' <= s[i] <= '9' || 'a' <= s[i] <= 'f'
  }

  /** `room_name_for_tenant`, for the suffix drawn. */
  function RoomName(tenant: string, suffix: string): string {
    "t_" + tenant + "_" + suffix
  }

  /** `tenant_from_room_name`, on the backend. */
  function TenantOf(room: Option<string>): Option<string> {
    if !Truthy(room) || !("t_" <= room.value) then None
    else
      var rest := room.value[2..];
      var i := LastIndexOf(rest, '_');
      if i <= 0 || i == |rest| - 1 then None else Some(rest[..i])
  }

  /** Python's `rpartition`: without a separator, everything is the last part. */
  function Rpartition(s: string, c: char): (string, string, string) {
    if s == "" then ("", "", "")
    else
      var front, last := s[..|s| - 1], s[|s| - 1];
      if last == c then (front, [c], "")
      else
        var (left, separator, right) := Rpartition(front, c);
        if separator == "" then ("", "", s) else (left, separator, right + [last])
  }

  /** `parse_tenant_id`, on the agent. */
  function ParseTenantId(room: Option<string>): Option<string> {
    if !Truthy(room) || !("t_" <= room.value) then None
    else
      var (tenant, _, suffix) := Rpartition(room.value[2..], '_');
      if tenant == "" || suffix == "" then None else Some(tenant)
  }

  /** `resolve_tenant_id`: the room name first, then the tenant the job's and the room's metadata name, if they do. */
  function Resolve(room: Option<string>, job: Option<string>, metadata: Option<string>): Option<string> {
    if ParseTenantId(room).Some? then ParseTenantId(room)
    else if Truthy(job) then job
    else if Truthy(metadata) then metadata
    else None
  }

  lemma {:induction false} RpartitionIs(s: string, c: char)
    ensures var i := LastIndexOf(s, c);
      Rpartition(s, c) == if i < 0 then ("", "", s) else (s[..i], [c], s[i + 1..])
  {
    if s != "" {
      var front, last := s[..|s| - 1], s[|s| - 1];
      assert s == front + [last];
      if last == c {
        assert s[|s|..] == "";
      } else {
        RpartitionIs(front, c);
        var i := LastIndexOf(front, c);
        assert i >= 0 ==> front[..i] == s[..i] && front[i + 1..] + [last] == s[i + 1..];
      }
    }
  }

  /** The two decoders agree on every string. */
  lemma DecodersAgree(room: Option<string>)
    ensures ParseTenantId(room) == TenantOf(room)
  {
    if Truthy(room) && "t_" <= room.value {
      RpartitionIs(room.value[2..], '_');
    }
  }

  /** A room name decodes to a tenant exactly when it is that tenant, not empty, between the prefix and a last
      part without underscores, not empty either. */
  lemma TenantOfIff(room: string, tenant: string)
    ensures TenantOf(Some(room)) == Some(tenant) <==>
      tenant != "" && exists suffix :: suffix != "" && '_' !in suffix && room == "t_" + tenant + "_" + suffix
  {
    if TenantOf(Some(room)) == Some(tenant) {
      var rest := room[2..];
      var suffix := rest[|tenant| + 1..];
      assert rest == tenant + "_" + suffix;
      assert room == "t_" + rest == "t_" + tenant + "_" + suffix;
    }
    if tenant != "" && exists suffix :: suffix != "" && '_' !in suffix && room == "t_" + tenant + "_" + suffix {
      var suffix :| suffix != "" && '_' !in suffix && room == "t_" + tenant + "_" + suffix;
      Decodes(tenant, suffix);
    }
  }

  lemma Decodes(tenant: string, suffix: string)
    requires suffix != "" && '_' !in suffix
    ensures TenantOf(Some(RoomName(tenant, suffix))) == if tenant == "" then None else Some(tenant)
  {
    var room := RoomName(tenant, suffix);
    var rest := tenant + ['_'] + suffix;
    assert room == "t_" + rest;
    assert "t_" <= room && room[2..] == rest;
    LastIndexOfSplit(tenant, '_', suffix);
    assert rest[..|tenant|] == tenant;
  }

  /** Minting and reading back: every tenant id but the empty one survives, underscores and all, whatever the
      metadata say. */
  lemma MintedRoomResolves(tenant: string, suffix: string, job: Option<string>, metadata: Option<string>)
    requires IsSuffix(suffix)
    ensures TenantOf(Some(RoomName(tenant, suffix))) == if tenant == "" then None else Some(tenant)
    ensures tenant != "" ==> Resolve(Some(RoomName(tenant, suffix)), job, metadata) == Some(tenant)
  {
    assert '_' !in suffix;
    Decodes(tenant, suffix);
    DecodersAgree(Some(RoomName(tenant, suffix)));
  }

  /** Of the three that may name the tenant the room's name comes first, then the job, then the room's metadata. */
  lemma NamesTakePrecedence(room: string, job: Option<string>, metadata: Option<string>, tenant: string)
    requires tenant != ""
    ensures (exists suffix :: suffix != "" && '_' !in suffix && room == "t_" + tenant + "_" + suffix) ==>
      Resolve(Some(room), job, metadata) == Some(tenant)
    ensures TenantOf(Some(room)) == None && job == Some(tenant) ==> Resolve(Some(room), job, metadata) == Some(tenant)
    ensures TenantOf(Some(room)) == None && !Truthy(job) && metadata == Some(tenant) ==>
      Resolve(Some(room), job, metadata) == Some(tenant)
    ensures TenantOf(Some(room)) == None && !Truthy(job) && !Truthy(metadata) ==>
      Resolve(Some(room), job, metadata) == None
  {
    TenantOfIff(room, tenant);
    DecodersAgree(Some(room));
  }

  /** Two mints share a room only as the same tenant with the same suffix. */
  lemma RoomsAreApart(a: string, x: string, b: string, y: string)
    requires IsSuffix(x) && IsSuffix(y)
    ensures RoomName(a, x) == RoomName(b, y) <==> a == b && x == y
  {
    if RoomName(a, x) == RoomName(b, y) {
      var s := RoomName(a, x);
      assert |a| == |b|;
      assert a == s[2..2 + |a|] && b == s[2..2 + |b|];
      assert x == s[3 + |a|..] && y == s[3 + |b|..];
    }
  }
}
