/**
 * The coin ledger (src/services/coinService.ts): crediting a purchase and debiting one coin on the
 * account record `user_<id>`, each followed by the re-write of the session copy under `"user"`.
 * Each operation is a method on the shared store, proved equal to a pure effect function whose
 * contract states what the operation does.
 */
module CoinService {
  import opened Wrappers
  import opened Storage

  /** What a ledger operation resolves with, and the store it leaves behind. */
  datatype Effect = Effect(ok: bool, store: Store)

  /**
   * The closing step of both operations: when the session copy is the account `userId`, its
   * balance is set to `coins`. Unparseable session text makes `JSON.parse` throw, so the
   * operation resolves with `false`, after the writes that came before.
   */
  function SyncSession(m: Store, userId: string, coins: int): (r: Effect)
    ensures r.store.Keys == m.Keys
    ensures forall k | k in m && k != SessionKey :: r.store[k] == m[k]
    ensures r.ok <==> !(SessionKey in m && !m[SessionKey].UserRecord?)
    ensures SessionKey in m && m[SessionKey].UserRecord? && m[SessionKey].user.id == userId ==>
              r.store[SessionKey] == UserRecord(m[SessionKey].user.(coins := coins))
    ensures !(SessionKey in m && m[SessionKey].UserRecord? && m[SessionKey].user.id == userId) ==>
              r.store == m
  {
    if SessionKey !in m then Effect(true, m)
    else match m[SessionKey]
      case UserRecord(current) =>
        if current.id == userId then Effect(true, m[SessionKey := UserRecord(current.(coins := coins))])
        else Effect(true, m)
      case _ => Effect(false, m)
  }

  /** The purchase record `purchaseCoins` writes first, whatever happens next. */
  function PurchaseEntry(userId: string, amount: int, purchaseId: string, date: string): Store {
    map[PurchaseKey(purchaseId) := PurchaseRecord(PurchaseData(purchaseId, userId, amount, date))]
  }

  /** `purchaseCoins(userId, amount)`: what it resolves with and the store it leaves. */
  function PurchaseEffect(m: Store, userId: string, amount: int, purchaseId: string, date: string): (r: Effect)
    // the purchase record is always written, and only the three keys below can change
    ensures r.store.Keys == m.Keys + {PurchaseKey(purchaseId)}
    ensures r.store[PurchaseKey(purchaseId)] == PurchaseRecord(PurchaseData(purchaseId, userId, amount, date))
    ensures forall k | k in m && k != PurchaseKey(purchaseId) && k != UserKey(userId) && k != SessionKey ::
              r.store[k] == m[k]
    // no account: no balance changes, and the purchase still succeeds
    ensures UserKey(userId) !in m ==> r.ok && r.store == m + PurchaseEntry(userId, amount, purchaseId, date)
    // an unreadable account: failure, with the purchase record already written
    ensures UserKey(userId) in m && !m[UserKey(userId)].UserRecord? ==>
              !r.ok && r.store == m + PurchaseEntry(userId, amount, purchaseId, date)
    // a readable account: its balance rises by exactly `amount`, its other fields stay
    ensures UserKey(userId) in m && m[UserKey(userId)].UserRecord? ==>
              var u := m[UserKey(userId)].user;
              && r.store[UserKey(userId)] == UserRecord(u.(coins := u.coins + amount))
              && (r.ok <==> !(SessionKey in m && !m[SessionKey].UserRecord?))
              && (SessionKey in m && m[SessionKey].UserRecord? && m[SessionKey].user.id == userId ==>
                    r.store[SessionKey] == UserRecord(m[SessionKey].user.(coins := u.coins + amount)))
    // the session copy of another account is never touched
    ensures SessionKey in m && !(m[SessionKey].UserRecord? && m[SessionKey].user.id == userId) ==>
              r.store[SessionKey] == m[SessionKey]
  {
    KeysDistinct(userId, purchaseId);
    var m1 := m + PurchaseEntry(userId, amount, purchaseId, date);
    if UserKey(userId) !in m1 then Effect(true, m1)
    else match m1[UserKey(userId)]
      case UserRecord(u) =>
        var credited := u.(coins := u.coins + amount);
        SyncSession(m1[UserKey(userId) := UserRecord(credited)], userId, credited.coins)
      case _ => Effect(false, m1)
  }

  /** `useCoin(userId)`: what it resolves with and the store it leaves. */
  function UseCoinEffect(m: Store, userId: string): (r: Effect)
    ensures r.store.Keys == m.Keys
    ensures forall k | k in m && k != UserKey(userId) && k != SessionKey :: r.store[k] == m[k]
    // a missing or unreadable account: failure, nothing written
    ensures UserKey(userId) !in m || !m[UserKey(userId)].UserRecord? ==> r == Effect(false, m)
    // the balance check is the only place where an account can be refused
    ensures UserKey(userId) in m && m[UserKey(userId)].UserRecord? ==>
              var u := m[UserKey(userId)].user;
              && (u.coins < 1 ==> r == Effect(false, m))
              && (u.coins >= 1 ==>
                    && r.store[UserKey(userId)] == UserRecord(u.(coins := u.coins - 1))
                    && (r.ok <==> !(SessionKey in m && !m[SessionKey].UserRecord?))
                    && (SessionKey in m && m[SessionKey].UserRecord? && m[SessionKey].user.id == userId ==>
                          r.store[SessionKey] == UserRecord(m[SessionKey].user.(coins := u.coins - 1))))
    // success means exactly one coin was taken
    ensures r.ok ==>
              && UserKey(userId) in m && m[UserKey(userId)].UserRecord? && m[UserKey(userId)].user.coins >= 1
              && r.store[UserKey(userId)].UserRecord?
              && r.store[UserKey(userId)].user.coins == m[UserKey(userId)].user.coins - 1
    ensures SessionKey in m && !(m[SessionKey].UserRecord? && m[SessionKey].user.id == userId) ==>
              r.store[SessionKey] == m[SessionKey]
  {
    KeysDistinct(userId, "");
    if UserKey(userId) !in m then Effect(false, m)
    else match m[UserKey(userId)]
      case UserRecord(u) =>
        if u.coins < 1 then Effect(false, m)
        else
          var debited := u.(coins := u.coins - 1);
          SyncSession(m[UserKey(userId) := UserRecord(debited)], userId, debited.coins)
      case _ => Effect(false, m)
  }

  /** `purchaseCoins`, step by step on the shared store. The payment delay and the cost are not modelled. */
  method PurchaseCoins(s: LocalStorage, userId: string, amount: int, purchaseId: string, date: string)
    returns (ok: bool)
    modifies s
    ensures Effect(ok, s.items) == PurchaseEffect(old(s.items), userId, amount, purchaseId, date)
  {
    KeysDistinct(userId, purchaseId);
    ghost var m1 := old(s.items) + PurchaseEntry(userId, amount, purchaseId, date);
    var purchase := PurchaseData(purchaseId, userId, amount, date);
    s.SetItem(PurchaseKey(purchase.id), PurchaseRecord(purchase));
    assert s.items == m1;
    var userJson := s.GetItem(UserKey(userId));
    if userJson.Some? {
      if !userJson.value.UserRecord? {
        return false;
      }
      var user := userJson.value.user;
      user := user.(coins := user.coins + amount);
      s.SetItem(UserKey(userId), UserRecord(user));
      assert s.items == m1[UserKey(userId) := UserRecord(user)];
      var currentUserJson := s.GetItem(SessionKey);
      if currentUserJson.Some? {
        if !currentUserJson.value.UserRecord? {
          return false;
        }
        var currentUser := currentUserJson.value.user;
        if currentUser.id == userId {
          currentUser := currentUser.(coins := user.coins);
          s.SetItem(SessionKey, UserRecord(currentUser));
        }
      }
    }
    return true;
  }

  /** `useCoin`, step by step on the shared store. */
  method UseCoin(s: LocalStorage, userId: string) returns (ok: bool)
    modifies s
    ensures Effect(ok, s.items) == UseCoinEffect(old(s.items), userId)
  {
    KeysDistinct(userId, "");
    var userJson := s.GetItem(UserKey(userId));
    if userJson.None? {
      return false;
    }
    if !userJson.value.UserRecord? {
      return false;
    }
    var user := userJson.value.user;
    if user.coins < 1 {
      return false;
    }
    user := user.(coins := user.coins - 1);
    s.SetItem(UserKey(userId), UserRecord(user));
    var currentUserJson := s.GetItem(SessionKey);
    if currentUserJson.Some? {
      if !currentUserJson.value.UserRecord? {
        return false;
      }
      var currentUser := currentUserJson.value.user;
      if currentUser.id == userId {
        currentUser := currentUser.(coins := user.coins);
        s.SetItem(SessionKey, UserRecord(currentUser));
      }
    }
    return true;
  }

  /** A purchase keeps the store invariant: in particular the session copy still mirrors its account. */
  lemma PurchasePreservesConsistency(m: Store, userId: string, amount: int, purchaseId: string, date: string)
    requires Consistent(m)
    ensures Consistent(PurchaseEffect(m, userId, amount, purchaseId, date).store)
  {
  }

  /** Taking a coin keeps the store invariant. */
  lemma UseCoinPreservesConsistency(m: Store, userId: string)
    requires Consistent(m)
    ensures Consistent(UseCoinEffect(m, userId).store)
  {
  }

  /** Taking a coin never makes a balance negative. */
  lemma UseCoinKeepsBalancesNonNegative(m: Store, userId: string)
    requires NonNegativeBalances(m)
    ensures NonNegativeBalances(UseCoinEffect(m, userId).store)
  {
  }

  /** Buying a non-negative number of coins never makes a balance negative. */
  lemma PurchaseKeepsBalancesNonNegative(m: Store, userId: string, amount: int, purchaseId: string, date: string)
    requires NonNegativeBalances(m) && amount >= 0
    ensures NonNegativeBalances(PurchaseEffect(m, userId, amount, purchaseId, date).store)
  {
  }

  /**
   * A successful purchase of at least one coin on an existing account lets the next `useCoin`
   * succeed, and the two leave the balance at the old one plus `amount` minus one.
   */
  lemma PurchaseThenUseCoin(m: Store, userId: string, amount: int, purchaseId: string, date: string)
    requires UserKey(userId) in m && m[UserKey(userId)].UserRecord?
    requires m[UserKey(userId)].user.coins >= 0 && amount >= 1
    requires PurchaseEffect(m, userId, amount, purchaseId, date).ok
    ensures var after := UseCoinEffect(PurchaseEffect(m, userId, amount, purchaseId, date).store, userId);
            && after.ok
            && after.store[UserKey(userId)] == UserRecord(m[UserKey(userId)].user.(coins := m[UserKey(userId)].user.coins + amount - 1))
  {
  }
}
