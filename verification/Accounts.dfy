/** core/account.go: account states that are debited and credited in place. */
module Accounts {
  import opened Addresses
  import opened Ledger

  class AccountState {
    var Nonce: nat
    var Balance: int

    /** What Encode stores in the trie. */
    function Encode(): (a: AccountData)
      reads this
    {
      AccountData(Nonce, Balance)
    }

    /** DecodeAS, and the literals that open an account. */
    constructor (a: AccountData)
      ensures Encode() == a
    {
      Nonce, Balance := a.nonce, a.balance;
    }

    /** The account under key in the trie, or a new one. */
    static method Read(st: Trie, key: Address, index: nat, opening: int) returns (s: AccountState)
      ensures fresh(s) && s.Encode() == Load(st, key, index, opening)
    {
      if key !in st {
        s := new AccountState(AccountData(index, opening));
      } else {
        s := new AccountState(st[key]);
      }
    }

    method Deduct(val: int) returns (ok: bool)
      modifies this
      ensures ok <==> old(Balance) >= val
      ensures Nonce == old(Nonce) && Balance == if ok then old(Balance) - val else old(Balance)
    {
      if Balance < val {
        return false;
      }
      Balance := Balance - val;
      ok := true;
    }

    method Deposit(value: int)
      modifies this
      ensures Nonce == old(Nonce) && Balance == old(Balance) + value
    {
      Balance := Balance + value;
    }
  }
}
