/** Judging a signed offer: an untrusted bag of events comes down to one verdict. */
module Offers {
  import opened Prelude
  import opened Evidence

  const KIND_STORE_PROFILE := 0
  const KIND_DELETION := 5
  const KIND_PAYTO := 10133
  const KIND_PRODUCT := 30402
  const KIND_STORE_AUTH := 30490
  const PAYOUT_COOLDOWN_SECS := 259200

  datatype Product = Product(storePubkey: string, d: string, createdAt: int, visibility: string, accept: seq<string>)

  datatype Profile = Profile(nip05: Option<string>, ownerPubkey: Option<string>, feeSupport: bool, memoMarker: bool)

  datatype Payout = Payout(caip19: string, chain: string, address: string, walletSigned: bool)

  datatype Known = Known(caip19: string, address: string)

  datatype Nip05 = Nip05(local: string, domain: string)

  datatype Source = NostrJson | Dns

  datatype DomainKeys = DomainKeys(domain: string, name: string, storePubkey: Option<string>, ownerPubkey: Option<string>, source: Source)

  datatype Level = A | B | C

  datatype Refusal =
    | ProductMissing | ProductNotOnSale | StoreProfileMissing | OwnerUnknown | OwnerMismatch | OwnerPinMismatch
    | DomainMismatch | StoreAuthMissing | StoreAuthRevoked | StoreAuthExpired | OriginMismatch | PaytoMissing
    | NoPayoutForAcceptedAssets

  datatype Warning =
    | DomainUnverified | OriginMismatched | OriginUnverifiable | PayoutRecentlyChanged | PayoutChanged | PayoutUnsigned
    | OwnerUnpinned

  datatype Options = Options(
    now: int, pageOrigin: Option<string>, strictOrigin: bool, hostedDomains: seq<string>, pinnedOwnerPubkey: Option<string>,
    cooldownSecs: Option<int>, paytoFirstSeenAt: Option<int>, knownPayouts: Option<seq<Known>>)

  datatype Offer = Offer(
    level: Level, domain: Option<string>, storePubkey: string, ownerPubkey: string, profile: Profile, product: Product,
    payouts: seq<Payout>, paytoCreatedAt: int, warnings: seq<Warning>)

  datatype Verification = Ok(offer: Offer) | Refused(refusal: Refusal)

  /** The parsers and the signature check, which this model does not open. None of them sees a signature but `genuine`. */
  datatype Readers = Readers(
    genuine: Check,
    parseProduct: Note -> Option<Product>,
    parseProfile: Note -> Option<Profile>,
    parsePayto: Note -> seq<Payout>,
    splitNip05: string -> Option<Nip05>,
    originMatches: (string, string) -> bool,
    canonicalAddress: (string, string) -> Option<string>)

  function ProductAddress(storePubkey: string, d: string): string {
    "30402:" + storePubkey + ":" + d
  }

  function StoreAuthAddress(ownerPubkey: string, storePubkey: string): string {
    "30490:" + ownerPubkey + ":" + storePubkey
  }

  // ---- The owner's authorization of a store key ----

  datatype AuthStatus = AuthActive | AuthRevoked | AuthExpired | AuthMalformed

  /** One mode, and a store named twice over to grant; taking the key away needs only the address and the mode. */
  function ReadStoreAuth(note: Note, storePubkey: string, now: int): AuthStatus {
    var modes := TagsNamed(note.tags, "mode");
    if note.kind != KIND_STORE_AUTH || TagValue(note.tags, "d") != Some(storePubkey) || |modes| != 1 || |modes[0]| < 2 then AuthMalformed
    else if modes[0][1] == "revoked" then AuthRevoked
    else if modes[0][1] !in ["self-host", "hosted"] then AuthMalformed
    else if !exists tag :: tag in TagsNamed(note.tags, "p") && |tag| > 1 && tag[1] == storePubkey then AuthMalformed
    else
      match ExpirationState(note.tags, now)
      case Unreadable => AuthMalformed
      case Expired => AuthExpired
      case NoExpiration => AuthActive
      case Active => AuthActive
  }

  function AuthWanted(owner: string, store: string, now: Option<int>): Wanted {
    Wanted(KIND_STORE_AUTH, owner, now, Some(store))
  }

  function DeletionWanted(author: string): Wanted {
    Wanted(KIND_DELETION, author, None, None)
  }

  ghost function Naming(notes: set<Note>, address: string): set<Note> {
    set n | n in notes && Names(n, address)
  }

  ghost function Revoking(notes: set<Note>, store: string, now: int): set<Note> {
    set n | n in notes && ReadStoreAuth(n, store, now) == AuthRevoked
  }

  predicate RevokedAfter(note: Option<Note>, auth: Option<Note>) {
    note.Some? && (auth.None? || note.value.createdAt >= auth.value.createdAt)
  }

  /** What the owner's newest word, newest deletion and newest revocation come to. */
  function Standing(auth: Option<Note>, deletion: Option<Note>, revocation: Option<Note>, store: string, now: int, fromDomain: bool)
    : Option<Refusal>
  {
    var status := if auth.Some? then Some(ReadStoreAuth(auth.value, store, now)) else None;
    if status == Some(AuthRevoked) || RevokedAfter(deletion, auth) || RevokedAfter(revocation, auth) then Some(StoreAuthRevoked)
    else if status == Some(AuthExpired) then Some(StoreAuthExpired)
    else if status == Some(AuthMalformed) then Some(StoreAuthMissing)
    else if !fromDomain && status != Some(AuthActive) then Some(StoreAuthMissing)
    else None
  }

  // ---- The anchor ----

  datatype Anchor =
    | Anchored(level: Level, domain: Option<string>, ownerPubkey: string, fromDomain: bool, warnings: seq<Warning>)
    | Adrift(refusal: Refusal)

  predicate Truthy(s: Option<string>) {
    s.Some? && s.value != ""
  }

  function ResolveAnchor(r: Readers, store: string, profile: Profile, keys: Option<DomainKeys>, o: Options): Anchor {
    var nip05 := if profile.nip05.Some? then r.splitNip05(profile.nip05.value) else None;
    var hosted := nip05.Some? && nip05.value.domain in o.hostedDomains;
    var txtForAnotherName := nip05.Some? && keys.Some? && keys.value.source == Dns && nip05.value.local != "_"
                             && keys.value.storePubkey != Some(store);
    if nip05.Some? && keys.Some? && keys.value.domain == nip05.value.domain && keys.value.name == nip05.value.local
       && keys.value.storePubkey.Some? && !txtForAnotherName
    then
      var domainWide := nip05.value.local == "_" || keys.value.source == Dns;
      if keys.value.storePubkey != Some(store) then Adrift(DomainMismatch)
      else if !hosted && domainWide && Truthy(keys.value.ownerPubkey) && profile.ownerPubkey.Some? then
        if profile.ownerPubkey != keys.value.ownerPubkey then Adrift(OwnerMismatch)
        else Anchored(A, Some(nip05.value.domain), keys.value.ownerPubkey.value, true, [])
      else OnTheProfilesWord(profile, if hosted then Some(nip05.value.domain) else None, if hosted then [] else [DomainUnverified])
    else OnTheProfilesWord(profile, None, if profile.nip05.Some? then [DomainUnverified] else [])
  }

  function OnTheProfilesWord(profile: Profile, hostedDomain: Option<string>, warnings: seq<Warning>): Anchor {
    if !Truthy(profile.ownerPubkey) then Adrift(OwnerUnknown)
    else Anchored(if hostedDomain.Some? then B else C, hostedDomain, profile.ownerPubkey.value, false, warnings)
  }

  // ---- Origin and payouts ----

  /** A refusal, or the warnings of the page's origin. */
  datatype OriginCheck = OriginRefused | OriginWarnings(warnings: seq<Warning>)

  function CheckOrigin(r: Readers, anchor: Anchor, o: Options): OriginCheck
    requires anchor.Anchored?
  {
    match o.pageOrigin
    case None => if o.strictOrigin then OriginRefused else OriginWarnings([])
    case Some(origin) =>
      if anchor.level != A || anchor.domain.None? then
        if o.strictOrigin then OriginRefused else OriginWarnings([OriginUnverifiable])
      else if !r.originMatches(origin, anchor.domain.value) then
        if o.strictOrigin then OriginRefused else OriginWarnings([OriginMismatched])
      else OriginWarnings([])
  }

  function Accepted(targets: seq<Payout>, accept: seq<string>): seq<Payout> {
    if targets == [] then []
    else (if targets[0].caip19 in accept then [targets[0]] else []) + Accepted(targets[1..], accept)
  }

  predicate IsKnown(r: Readers, target: Payout, known: seq<Known>) {
    exists k :: k in known && k.caip19 == target.caip19 && r.canonicalAddress(target.chain, k.address) == Some(target.address)
  }

  function PayoutWarnings(r: Readers, payto: Note, payouts: seq<Payout>, o: Options): seq<Warning> {
    var seen := if o.paytoFirstSeenAt.Some? then o.paytoFirstSeenAt.value else 0;
    var age := o.now - (if payto.createdAt > seen then payto.createdAt else seen);
    var cooldown := if o.cooldownSecs.Some? then o.cooldownSecs.value else PAYOUT_COOLDOWN_SECS;
    (if age < cooldown then [PayoutRecentlyChanged] else []) +
    (if o.knownPayouts.Some? && exists t :: t in payouts && !IsKnown(r, t, o.knownPayouts.value) then [PayoutChanged] else []) +
    (if exists t :: t in payouts && !t.walletSigned then [PayoutUnsigned] else [])
  }

  function Settle(r: Readers, store: string, product: Product, profile: Profile, anchor: Anchor, warnings: seq<Warning>,
                  payto: Option<Note>, o: Options): Verification
    requires anchor.Anchored?
  {
    if payto.None? || IsLapsed(payto.value, o.now) then Refused(PaytoMissing)
    else
      var payouts := Accepted(r.parsePayto(payto.value), product.accept);
      if payouts == [] then Refused(NoPayoutForAcceptedAssets)
      else
        Ok(Offer(anchor.level, anchor.domain, store, anchor.ownerPubkey, profile, product, payouts, payto.value.createdAt,
                 warnings + PayoutWarnings(r, payto.value, payouts, o)))
  }

  // ---- The verdict on a set of evidence ----

  function CurrentProduct(r: Readers, note: Option<Note>, now: int): Option<Product> {
    if note.Some? && !IsLapsed(note.value, now) then r.parseProduct(note.value) else None
  }

  function CurrentProfile(r: Readers, note: Option<Note>, now: int): Option<Profile> {
    if note.Some? && !IsLapsed(note.value, now) then r.parseProfile(note.value) else None
  }

  predicate IsPurchasable(product: Product) {
    product.visibility in ["on-sale", "pre-order"]
  }

  /** What the store itself says: a listing on sale that it has not deleted, and its profile. */
  datatype Listing = Listed(product: Product, profile: Profile) | Unlisted(refusal: Refusal)

  ghost function StoresWord(r: Readers, notes: set<Note>, store: string, d: string, now: int): Listing {
    match CurrentProduct(r, Newest(notes, Wanted(KIND_PRODUCT, store, Some(now), Some(d))), now)
    case None => Unlisted(ProductMissing)
    case Some(product) =>
      var deletion := Newest(Naming(notes, ProductAddress(product.storePubkey, product.d)), DeletionWanted(store));
      if deletion.Some? && deletion.value.createdAt >= product.createdAt then Unlisted(ProductMissing)
      else if !IsPurchasable(product) then Unlisted(ProductNotOnSale)
      else
        match CurrentProfile(r, Newest(notes, ProfileWanted(store, now)), now)
        case None => Unlisted(StoreProfileMissing)
        case Some(profile) => Listed(product, profile)
  }

  function ProfileWanted(store: string, now: int): Wanted {
    Wanted(KIND_STORE_PROFILE, store, Some(now), None)
  }

  function PaytoWanted(owner: string, now: int): Wanted {
    Wanted(KIND_PAYTO, owner, Some(now), None)
  }

  ghost function Verdict(r: Readers, notes: set<Note>, store: string, d: string, keys: Option<DomainKeys>, o: Options): Verification {
    var listing := StoresWord(r, notes, store, d, o.now);
    if listing.Unlisted? then Refused(listing.refusal)
    else
      var anchor := ResolveAnchor(r, store, listing.profile, keys, o);
      if anchor.Adrift? then Refused(anchor.refusal)
      else OwnersVerdict(r, notes, store, listing.product, listing.profile, anchor, o)
  }

  ghost function OwnersStanding(notes: set<Note>, owner: string, store: string, fromDomain: bool, now: int): Option<Refusal> {
    Standing(Newest(notes, AuthWanted(owner, store, Some(now))),
             Newest(Naming(notes, StoreAuthAddress(owner, store)), DeletionWanted(owner)),
             Newest(Revoking(notes, store, now), AuthWanted(owner, store, None)),
             store, now, fromDomain)
  }

  ghost function OwnersVerdict(r: Readers, notes: set<Note>, store: string, product: Product, profile: Profile, anchor: Anchor, o: Options)
    : Verification
    requires anchor.Anchored?
  {
    var owner := anchor.ownerPubkey;
    if o.pinnedOwnerPubkey.Some? && o.pinnedOwnerPubkey.value != owner then Refused(OwnerPinMismatch)
    else
      match OwnersStanding(notes, owner, store, anchor.fromDomain, o.now)
      case Some(refusal) => Refused(refusal)
      case None =>
        match CheckOrigin(r, anchor, o)
        case OriginRefused => Refused(OriginMismatch)
        case OriginWarnings(more) =>
          Settle(r, store, product, profile, anchor,
                 anchor.warnings + (if o.pinnedOwnerPubkey.None? then [OwnerUnpinned] else []) + more,
                 Newest(notes, PaytoWanted(owner, o.now)), o)
  }

  // ---- The evaluation of a bag ----

  method LastWord(r: Readers, events: seq<Item>, w: Wanted) returns (newest: Option<Note>)
    requires IdsNameContent(r.genuine)
    ensures newest == Newest(GenuineNotes(r.genuine, events), w)
  {
    newest := NewestSigned(r.genuine, events, w);
    GenuineIdsUnique(r.genuine, events);
    NewestIsUnique(newest, Newest(GenuineNotes(r.genuine, events), w), GenuineNotes(r.genuine, events), w);
  }

  method NewestDeletion(r: Readers, events: seq<Item>, address: string, author: string) returns (newest: Option<Note>)
    requires IdsNameContent(r.genuine)
    ensures newest == Newest(Naming(GenuineNotes(r.genuine, events), address), DeletionWanted(author))
  {
    newest := LastWord(r, Filter(events, n => Names(n, address)), DeletionWanted(author));
    FilteredEvidence(r.genuine, events, n => Names(n, address));
    assert GenuineNotes(r.genuine, Filter(events, n => Names(n, address))) == Naming(GenuineNotes(r.genuine, events), address);
  }

  method OwnerRefusal(r: Readers, events: seq<Item>, owner: string, store: string, fromDomain: bool, now: int) returns (refusal: Option<Refusal>)
    requires IdsNameContent(r.genuine)
    ensures refusal == OwnersStanding(GenuineNotes(r.genuine, events), owner, store, fromDomain, now)
  {
    var auth := LastWord(r, events, AuthWanted(owner, store, Some(now)));
    var deletion := NewestDeletion(r, events, StoreAuthAddress(owner, store), owner);
    var revoking := Filter(events, n => ReadStoreAuth(n, store, now) == AuthRevoked);
    FilteredEvidence(r.genuine, events, n => ReadStoreAuth(n, store, now) == AuthRevoked);
    assert GenuineNotes(r.genuine, revoking) == Revoking(GenuineNotes(r.genuine, events), store, now);
    var revocation := LastWord(r, revoking, AuthWanted(owner, store, None));
    refusal := Standing(auth, deletion, revocation, store, now, fromDomain);
  }

  method ReadListing(r: Readers, events: seq<Item>, store: string, d: string, now: int) returns (listing: Listing)
    requires IdsNameContent(r.genuine)
    ensures listing == StoresWord(r, GenuineNotes(r.genuine, events), store, d, now)
  {
    var productNote := LastWord(r, events, Wanted(KIND_PRODUCT, store, Some(now), Some(d)));
    var product := CurrentProduct(r, productNote, now);
    if product.None? {
      return Unlisted(ProductMissing);
    }
    var deletion := NewestDeletion(r, events, ProductAddress(product.value.storePubkey, product.value.d), store);
    if deletion.Some? && deletion.value.createdAt >= product.value.createdAt {
      return Unlisted(ProductMissing);
    }
    if !IsPurchasable(product.value) {
      return Unlisted(ProductNotOnSale);
    }
    var profileNote := LastWord(r, events, ProfileWanted(store, now));
    var profile := CurrentProfile(r, profileNote, now);
    if profile.None? {
      return Unlisted(StoreProfileMissing);
    }
    listing := Listed(product.value, profile.value);
  }

  method JudgeOwner(r: Readers, events: seq<Item>, store: string, product: Product, profile: Profile, anchor: Anchor, o: Options)
    returns (verification: Verification)
    requires IdsNameContent(r.genuine) && anchor.Anchored?
    ensures verification == OwnersVerdict(r, GenuineNotes(r.genuine, events), store, product, profile, anchor, o)
  {
    var warnings := anchor.warnings;
    if o.pinnedOwnerPubkey.Some? && o.pinnedOwnerPubkey.value != anchor.ownerPubkey {
      return Refused(OwnerPinMismatch);
    }
    if o.pinnedOwnerPubkey.None? {
      warnings := warnings + [OwnerUnpinned];
    }
    var refusal := OwnerRefusal(r, events, anchor.ownerPubkey, store, anchor.fromDomain, o.now);
    if refusal.Some? {
      return Refused(refusal.value);
    }
    var origin := CheckOrigin(r, anchor, o);
    if origin.OriginRefused? {
      return Refused(OriginMismatch);
    }
    warnings := warnings + origin.warnings;
    assert o.pinnedOwnerPubkey.Some? ==> anchor.warnings + [] == anchor.warnings;
    var payto := LastWord(r, events, PaytoWanted(anchor.ownerPubkey, o.now));
    verification := Settle(r, store, product, profile, anchor, warnings, payto, o);
  }

  /** The verdict on a bag of events is the verdict on the evidence in it. */
  method EvaluateOffer(r: Readers, store: string, d: string, events: seq<Item>, keys: Option<DomainKeys>, o: Options)
    returns (verification: Verification)
    requires IdsNameContent(r.genuine)
    ensures verification == Verdict(r, GenuineNotes(r.genuine, events), store, d, keys, o)
  {
    var listing := ReadListing(r, events, store, d, o.now);
    if listing.Unlisted? {
      return Refused(listing.refusal);
    }
    var anchor := ResolveAnchor(r, store, listing.profile, keys, o);
    if anchor.Adrift? {
      return Refused(anchor.refusal);
    }
    verification := JudgeOwner(r, events, store, listing.product, listing.profile, anchor, o);
  }

  // ---- What a verdict means ----

  /** The owner's word on a store key, as far as the clock lets it count. */
  ghost predicate IsAuth(n: Note, owner: string, store: string, now: int) {
    n.kind == 30490 && n.pubkey == owner && TagValue(n.tags, "d") == Some(store) && n.createdAt <= now + 900
  }

  /** A revocation or a deletion of the authorization, whatever its date. */
  ghost predicate Withdraws(n: Note, owner: string, store: string, now: int) {
    || (n.kind == 30490 && n.pubkey == owner && TagValue(n.tags, "d") == Some(store) && ReadStoreAuth(n, store, now) == AuthRevoked)
    || (n.kind == 5 && n.pubkey == owner && Names(n, "30490:" + owner + ":" + store))
  }

  /** Some withdrawal is at least as new as every authorization that counts. */
  ghost predicate Withdrawn(notes: set<Note>, owner: string, store: string, now: int) {
    exists w :: w in notes && Withdraws(w, owner, store, now)
      && forall a :: a in notes && IsAuth(a, owner, store, now) ==> a.createdAt <= w.createdAt
  }

  lemma CountsIff(n: Note, owner: string, store: string, now: int)
    ensures IsAuth(n, owner, store, now) <==> Matches(n, AuthWanted(owner, store, Some(now)))
    ensures Withdraws(n, owner, store, now)
            <==> || (Matches(n, AuthWanted(owner, store, None)) && ReadStoreAuth(n, store, now) == AuthRevoked)
                 || (Matches(n, DeletionWanted(owner)) && Names(n, StoreAuthAddress(owner, store)))
  {
  }

  /** What revokes is a withdrawal at least as new as every authorization that counts. */
  lemma RevokerWithdraws(notes: set<Note>, owner: string, store: string, fromDomain: bool, now: int)
    requires OwnersStanding(notes, owner, store, fromDomain, now) == Some(StoreAuthRevoked)
    ensures Withdrawn(notes, owner, store, now)
  {
    var auth := Newest(notes, AuthWanted(owner, store, Some(now)));
    var deletion := Newest(Naming(notes, StoreAuthAddress(owner, store)), DeletionWanted(owner));
    var revocation := Newest(Revoking(notes, store, now), AuthWanted(owner, store, None));
    var w := if RevokedAfter(deletion, auth) then deletion.value else if RevokedAfter(revocation, auth) then revocation.value else auth.value;
    CountsIff(w, owner, store, now);
    assert w in notes && Withdraws(w, owner, store, now);
    forall a | a in notes && IsAuth(a, owner, store, now) ensures a.createdAt <= w.createdAt {
      CountsIff(a, owner, store, now);
    }
  }

  lemma WithdrawalRevokes(notes: set<Note>, owner: string, store: string, fromDomain: bool, now: int, w: Note)
    requires w in notes && Withdraws(w, owner, store, now)
    requires forall a :: a in notes && IsAuth(a, owner, store, now) ==> a.createdAt <= w.createdAt
    ensures OwnersStanding(notes, owner, store, fromDomain, now) == Some(StoreAuthRevoked)
  {
    var auth := Newest(notes, AuthWanted(owner, store, Some(now)));
    if auth.Some? {
      CountsIff(auth.value, owner, store, now);
    }
    CountsIff(w, owner, store, now);
    if Matches(w, DeletionWanted(owner)) && Names(w, StoreAuthAddress(owner, store)) {
      assert w in Naming(notes, StoreAuthAddress(owner, store));
      assert RevokedAfter(Newest(Naming(notes, StoreAuthAddress(owner, store)), DeletionWanted(owner)), auth);
    } else {
      assert w in Revoking(notes, store, now);
      assert RevokedAfter(Newest(Revoking(notes, store, now), AuthWanted(owner, store, None)), auth);
    }
  }

  /** The revoked answer is given exactly when the owner's withdrawal stands. */
  lemma RevokedIffWithdrawn(notes: set<Note>, owner: string, store: string, fromDomain: bool, now: int)
    ensures OwnersStanding(notes, owner, store, fromDomain, now) == Some(StoreAuthRevoked) <==> Withdrawn(notes, owner, store, now)
  {
    if OwnersStanding(notes, owner, store, fromDomain, now) == Some(StoreAuthRevoked) {
      RevokerWithdraws(notes, owner, store, fromDomain, now);
    }
    if w :| w in notes && Withdraws(w, owner, store, now)
            && forall a :: a in notes && IsAuth(a, owner, store, now) ==> a.createdAt <= w.createdAt {
      WithdrawalRevokes(notes, owner, store, fromDomain, now, w);
    }
  }

  /** An anchored store: on the domain's word its level is A and the domain names both keys; else the profile names the owner. */
  lemma AnchorMeans(r: Readers, store: string, profile: Profile, keys: Option<DomainKeys>, o: Options)
    requires ResolveAnchor(r, store, profile, keys, o).Anchored?
    ensures var anchor := ResolveAnchor(r, store, profile, keys, o);
            && profile.ownerPubkey == Some(anchor.ownerPubkey)
            && (anchor.level == A <==> anchor.fromDomain)
            && (anchor.level == A ==>
                  && profile.nip05.Some? && r.splitNip05(profile.nip05.value).Some? && keys.Some?
                  && keys.value.storePubkey == Some(store) && keys.value.ownerPubkey == Some(anchor.ownerPubkey)
                  && Some(keys.value.domain) == anchor.domain && r.splitNip05(profile.nip05.value).value == Nip05(keys.value.name, keys.value.domain)
                  && (keys.value.name == "_" || keys.value.source == Dns))
  {
  }

  lemma AcceptedByOwner(r: Readers, notes: set<Note>, store: string, product: Product, profile: Profile, anchor: Anchor, o: Options)
    requires anchor.Anchored? && OwnersVerdict(r, notes, store, product, profile, anchor, o).Ok?
    ensures var offer := OwnersVerdict(r, notes, store, product, profile, anchor, o).offer;
            && offer.ownerPubkey == anchor.ownerPubkey && offer.level == anchor.level && offer.domain == anchor.domain
            && offer.product == product && offer.profile == profile && offer.storePubkey == store
            && OwnersStanding(notes, anchor.ownerPubkey, store, anchor.fromDomain, o.now).None?
            && (o.pinnedOwnerPubkey.Some? ==> o.pinnedOwnerPubkey.value == anchor.ownerPubkey)
            && !CheckOrigin(r, anchor, o).OriginRefused?
            && (var payto := Newest(notes, PaytoWanted(anchor.ownerPubkey, o.now));
                payto.Some? && !IsLapsed(payto.value, o.now)
                && offer.payouts == Accepted(r.parsePayto(payto.value), product.accept) && offer.payouts != [])
  {
  }

  /**
   An accepted offer: every withdrawal of the store key is strictly older than an authorization
   that counts; off the domain's word the newest authorization is active.
   */
  lemma AcceptedIsAuthorized(r: Readers, notes: set<Note>, store: string, d: string, keys: Option<DomainKeys>, o: Options)
    requires Verdict(r, notes, store, d, keys, o).Ok?
    ensures var offer := Verdict(r, notes, store, d, keys, o).offer;
            && (forall w :: w in notes && Withdraws(w, offer.ownerPubkey, store, o.now) ==>
                  exists a :: a in notes && IsAuth(a, offer.ownerPubkey, store, o.now) && a.createdAt > w.createdAt)
            && (var auth := Newest(notes, AuthWanted(offer.ownerPubkey, store, Some(o.now)));
                if auth.Some? then ReadStoreAuth(auth.value, store, o.now) == AuthActive else offer.level == A)
  {
    var listing := StoresWord(r, notes, store, d, o.now);
    var anchor := ResolveAnchor(r, store, listing.profile, keys, o);
    AcceptedByOwner(r, notes, store, listing.product, listing.profile, anchor, o);
    AnchorMeans(r, store, listing.profile, keys, o);
    NotWithdrawn(notes, anchor.ownerPubkey, store, anchor.fromDomain, o.now);
  }

  lemma NotWithdrawn(notes: set<Note>, owner: string, store: string, fromDomain: bool, now: int)
    requires OwnersStanding(notes, owner, store, fromDomain, now).None?
    ensures forall w :: w in notes && Withdraws(w, owner, store, now) ==>
              exists a :: a in notes && IsAuth(a, owner, store, now) && a.createdAt > w.createdAt
    ensures var auth := Newest(notes, AuthWanted(owner, store, Some(now)));
            if auth.Some? then ReadStoreAuth(auth.value, store, now) == AuthActive else fromDomain
  {
    RevokedIffWithdrawn(notes, owner, store, fromDomain, now);
  }

  lemma {:induction false} AcceptedMembers(targets: seq<Payout>, accept: seq<string>)
    ensures forall t :: t in Accepted(targets, accept) <==> t in targets && t.caip19 in accept
  {
    if targets != [] {
      AcceptedMembers(targets[1..], accept);
      assert forall t :: t in targets <==> t == targets[0] || t in targets[1..];
    }
  }

  /**
   An accepted offer pays only where the owner's newest payout list says, for an asset the
   product accepts; it respects the pin, and in strict mode the page is on the store's own domain.
   */
  lemma AcceptedPaysOwner(r: Readers, notes: set<Note>, store: string, d: string, keys: Option<DomainKeys>, o: Options)
    requires Verdict(r, notes, store, d, keys, o).Ok?
    ensures var offer := Verdict(r, notes, store, d, keys, o).offer;
            && (var payto := Newest(notes, PaytoWanted(offer.ownerPubkey, o.now));
                && payto.Some? && !IsLapsed(payto.value, o.now)
                && offer.payouts != []
                && forall t :: t in offer.payouts <==> t in r.parsePayto(payto.value) && t.caip19 in offer.product.accept)
            && offer.profile.ownerPubkey == Some(offer.ownerPubkey)
            && (o.pinnedOwnerPubkey.Some? ==> o.pinnedOwnerPubkey.value == offer.ownerPubkey)
            && (o.strictOrigin ==> offer.level == A && offer.domain.Some? && o.pageOrigin.Some? && r.originMatches(o.pageOrigin.value, offer.domain.value))
  {
    var listing := StoresWord(r, notes, store, d, o.now);
    var anchor := ResolveAnchor(r, store, listing.profile, keys, o);
    AcceptedByOwner(r, notes, store, listing.product, listing.profile, anchor, o);
    AnchorMeans(r, store, listing.profile, keys, o);
    AcceptedMembers(r.parsePayto(Newest(notes, PaytoWanted(anchor.ownerPubkey, o.now)).value), listing.product.accept);
  }

  /** Reordering, repeating, adding or dropping what is not genuine never changes the verdict. */
  lemma VerdictIsOnEvidence(r: Readers, events: seq<Item>, others: seq<Item>, store: string, d: string, keys: Option<DomainKeys>, o: Options)
    requires forall item :: IsGenuine(r.genuine, item) ==> (item in events <==> item in others)
    ensures Verdict(r, GenuineNotes(r.genuine, events), store, d, keys, o) == Verdict(r, GenuineNotes(r.genuine, others), store, d, keys, o)
  {
    SameEvidence(r.genuine, events, others);
  }

  // ---- Two passes ----

  /** What the relays and the store's domain answer. */
  datatype Net = Net(ownerEvents: set<string> -> seq<Item>, resolve: string -> Option<DomainKeys>)

  predicate OwnersOwn(owners: set<string>, note: Note) {
    note.pubkey in owners && note.kind in {KIND_PAYTO, KIND_STORE_AUTH, KIND_DELETION}
  }

  /** The profile the first pass goes by. */
  ghost function LookedUp(r: Readers, store: string, storeEvents: seq<Item>, now: int): Option<Profile> {
    var note := Newest(GenuineNotes(r.genuine, storeEvents), ProfileWanted(store, now));
    if note.Some? then r.parseProfile(note.value) else None
  }

  /** What the domain that profile names answers; a name that is no public one is never asked. */
  function Answered(r: Readers, net: Net, profile: Option<Profile>): Option<DomainKeys> {
    if profile.Some? && profile.value.nip05.Some? && r.splitNip05(profile.value.nip05.value).Some?
    then net.resolve(profile.value.nip05.value)
    else None
  }

  function Owners(profile: Option<Profile>, keys: Option<DomainKeys>): set<string> {
    (if profile.Some? && Truthy(profile.value.ownerPubkey) then {profile.value.ownerPubkey.value} else {}) +
    (if keys.Some? && Truthy(keys.value.ownerPubkey) then {keys.value.ownerPubkey.value} else {})
  }

  function Bundle(net: Net, storeEvents: seq<Item>, owners: set<string>): seq<Item> {
    storeEvents + Filter(if owners == {} then [] else net.ownerEvents(owners), n => OwnersOwn(owners, n))
  }

  /**
   The first pass finds the profile and looks its domain up, the second judges everything: an
   accepted offer carries the very profile whose domain was looked up.
   */
  method VerifyOffer(r: Readers, net: Net, store: string, d: string, storeEvents: seq<Item>, o: Options) returns (verification: Verification)
    requires IdsNameContent(r.genuine)
    ensures var profile := LookedUp(r, store, storeEvents, o.now);
            var keys := Answered(r, net, profile);
            && verification == Verdict(r, GenuineNotes(r.genuine, Bundle(net, storeEvents, Owners(profile, keys))), store, d, keys, o)
            && (verification.Ok? ==> Some(verification.offer.profile) == profile)
  {
    var profileNote := LastWord(r, storeEvents, ProfileWanted(store, o.now));
    var profile := if profileNote.Some? then r.parseProfile(profileNote.value) else None;
    var keys := Answered(r, net, profile);
    var owners := {};
    if profile.Some? && Truthy(profile.value.ownerPubkey) {
      owners := owners + {profile.value.ownerPubkey.value};
    }
    if keys.Some? && Truthy(keys.value.ownerPubkey) {
      owners := owners + {keys.value.ownerPubkey.value};
    }
    var ownerEvents := if owners == {} then [] else net.ownerEvents(owners);
    var bag := storeEvents + Filter(ownerEvents, n => OwnersOwn(owners, n));
    verification := EvaluateOffer(r, store, d, bag, keys, o);
    assert owners == Owners(profile, keys) && bag == Bundle(net, storeEvents, owners);
    if verification.Ok? {
      SameProfile(r, owners, store, storeEvents, ownerEvents, o.now);
      JudgedProfile(r, GenuineNotes(r.genuine, bag), store, d, keys, o);
    }
  }

  /** Owner events that ride along cannot swap the profile in. */
  lemma SameProfile(r: Readers, owners: set<string>, store: string, storeEvents: seq<Item>, ownerEvents: seq<Item>, now: int)
    requires IdsNameContent(r.genuine)
    ensures Newest(GenuineNotes(r.genuine, storeEvents + Filter(ownerEvents, n => OwnersOwn(owners, n))), ProfileWanted(store, now))
            == Newest(GenuineNotes(r.genuine, storeEvents), ProfileWanted(store, now))
  {
    var ownerOnly := Filter(ownerEvents, n => OwnersOwn(owners, n));
    var all := GenuineNotes(r.genuine, storeEvents + ownerOnly);
    var own := GenuineNotes(r.genuine, storeEvents);
    FilterMembers(ownerEvents, n => OwnersOwn(owners, n));
    assert forall n :: n in all && Matches(n, ProfileWanted(store, now)) ==> n in own;
    assert own <= all;
    GenuineIdsUnique(r.genuine, storeEvents + ownerOnly);
    NewestIsUnique(Newest(all, ProfileWanted(store, now)), Newest(own, ProfileWanted(store, now)), all, ProfileWanted(store, now));
  }

  lemma JudgedProfile(r: Readers, notes: set<Note>, store: string, d: string, keys: Option<DomainKeys>, o: Options)
    requires Verdict(r, notes, store, d, keys, o).Ok?
    ensures var note := Newest(notes, ProfileWanted(store, o.now));
            note.Some? && r.parseProfile(note.value) == Some(Verdict(r, notes, store, d, keys, o).offer.profile)
  {
    var listing := StoresWord(r, notes, store, d, o.now);
    AcceptedByOwner(r, notes, store, listing.product, listing.profile, ResolveAnchor(r, store, listing.profile, keys, o), o);
  }
}
