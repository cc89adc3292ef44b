/**
 Policy scopes: which invoices a version applies to, and the first version in position
 order that applies.
 */
module Matching {
  import opened Domain

  /** A missing bound is open. */
  datatype Band = Band(lower: Option<Money>, upper: Option<Money>, currency: string)

  /** Empty everywhere is a catch-all. */
  datatype Scopes = Scopes(docTypes: seq<string>, entities: seq<Entity>, roles: seq<Key>, band: Option<Band>)

  datatype ScopeName = DocumentType | Client | AmountBand | CreatorRole

  const CATCH_ALL := Scopes([], [], [], None)

  predicate Scoped(s: Scopes) {
    |s.docTypes| > 0 || |s.entities| > 0 || |s.roles| > 0 || s.band.Some?
  }

  /** An absent total or currency never falls in a band. */
  predicate InBand(doc: Facts, b: Band) {
    && doc.currency == Some(b.currency)
    && doc.total.Some?
    && (b.lower.Some? ==> b.lower.value <= doc.total.value)
    && (b.upper.Some? ==> doc.total.value <= b.upper.value)
  }

  /** Every scope that is set admits the invoice. */
  predicate Applies(doc: Facts, creatorRoles: set<Key>, s: Scopes) {
    && (|s.docTypes| > 0 ==> doc.docType in s.docTypes)
    && (|s.entities| > 0 ==> doc.entity in s.entities)
    && (s.band.Some? ==> InBand(doc, s.band.value))
    && (|s.roles| > 0 ==> exists k | k in s.roles :: k in creatorRoles)
  }

  function SetScopes(s: Scopes): seq<ScopeName> {
    (if |s.docTypes| > 0 then [DocumentType] else [])
    + (if |s.entities| > 0 then [Client] else [])
    + (if s.band.Some? then [AmountBand] else [])
    + (if |s.roles| > 0 then [CreatorRole] else [])
  }

  method MatchScopes(doc: Facts, creatorRoles: set<Key>, s: Scopes) returns (matched: seq<ScopeName>, hit: bool)
    ensures hit == Applies(doc, creatorRoles, s)
    ensures hit ==> matched == SetScopes(s)
  {
    matched := [];
    if |s.docTypes| > 0 {
      if doc.docType !in s.docTypes {
        return [], false;
      }
      matched := matched + [DocumentType];
    }
    if |s.entities| > 0 {
      if doc.entity !in s.entities {
        return [], false;
      }
      matched := matched + [Client];
    }
    if s.band.Some? {
      var b := s.band.value;
      if doc.currency.None? || doc.currency.value != b.currency || doc.total.None? {
        return [], false;
      }
      if b.lower.Some? && doc.total.value < b.lower.value {
        return [], false;
      }
      if b.upper.Some? && doc.total.value > b.upper.value {
        return [], false;
      }
      matched := matched + [AmountBand];
    }
    if |s.roles| > 0 {
      if forall k | k in s.roles :: k !in creatorRoles {
        return [], false;
      }
      matched := matched + [CreatorRole];
    }
    return matched, true;
  }

  /** One version in force, as the engine reads it. */
  datatype InForce = InForce(policy: PolicyId, number: nat, scopes: Scopes)

  /** The engine's search: the first version whose set scopes all match. */
  method FirstMatch(doc: Facts, creatorRoles: set<Key>, versions: seq<InForce>)
    returns (at: Option<nat>, matched: seq<ScopeName>)
    ensures at.Some? ==>
      && at.value < |versions|
      && Applies(doc, creatorRoles, versions[at.value].scopes)
      && matched == SetScopes(versions[at.value].scopes)
      && forall j | 0 <= j < at.value :: !Applies(doc, creatorRoles, versions[j].scopes)
    ensures at.None? ==> forall j | 0 <= j < |versions| :: !Applies(doc, creatorRoles, versions[j].scopes)
  {
    for i := 0 to |versions|
      invariant forall j | 0 <= j < i :: !Applies(doc, creatorRoles, versions[j].scopes)
    {
      var m, hit := MatchScopes(doc, creatorRoles, versions[i].scopes);
      if hit {
        return Some(i), m;
      }
    }
    return None, [];
  }

  /** A version with no scope applies to every invoice whoever created it, and only such a version does. */
  lemma CatchAllExactly(s: Scopes)
    ensures !Scoped(s) <==> forall doc, creatorRoles :: Applies(doc, creatorRoles, s)
  {
    if Scoped(s) {
      var doc := Facts(Fresh(s.docTypes), FreshEntity(s.entities), None, None);
      FreshIsNew(s.docTypes);
      FreshEntityIsNew(s.entities);
      assert !Applies(doc, {}, s);
    }
  }

  /** A string longer than every listed one. */
  function Fresh(names: seq<string>): string {
    if names == [] then "" else names[0] + "x" + Fresh(names[1..])
  }

  lemma FreshIsNew(names: seq<string>)
    ensures Fresh(names) !in names
  {
    FreshIsLonger(names);
  }

  lemma {:induction false} FreshIsLonger(names: seq<string>)
    ensures forall n | n in names :: |n| < |Fresh(names)|
  {
    if names != [] {
      FreshIsLonger(names[1..]);
      forall n | n in names ensures |n| < |Fresh(names)| {
        if n != names[0] {
          assert n in names[1..];
        }
      }
    }
  }

  function FreshEntity(ids: seq<Entity>): Entity {
    if ids == [] then 0 else ids[0] + 1 + FreshEntity(ids[1..])
  }

  lemma FreshEntityIsNew(ids: seq<Entity>)
    ensures FreshEntity(ids) !in ids
  {
    FreshEntityIsLarger(ids);
  }

  lemma {:induction false} FreshEntityIsLarger(ids: seq<Entity>)
    ensures forall n | n in ids :: n < FreshEntity(ids)
  {
    if ids != [] {
      FreshEntityIsLarger(ids[1..]);
      forall n | n in ids ensures n < FreshEntity(ids) {
        if n != ids[0] {
          assert n in ids[1..];
        }
      }
    }
  }
}
