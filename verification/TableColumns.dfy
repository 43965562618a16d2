/** The column lists of all tables qualify for the statement caches: no name begins another one, has a dot
    or starts with a digit. Each list is given in alphabetical order. */
module TableColumns {
  import opened CacheKey

  // access_tokens, confirmation_tokens, password_reset_tokens
  lemma ExpiringTokens()
    ensures IsColumnList(["created_at", "token", "updated_at", "user_id", "valid_until"])
  {
    SortedNamesPrefixFree(["created_at", "token", "updated_at", "user_id", "valid_until"]);
  }

  lemma AddressBook()
    ensures IsColumnList(["address", "chain_id", "created_at", "created_by"] + ["id", "is_whitelisted", "name",
        "organization_id", "updated_at"])
  {
    PartsLate("created_at", "created_by", 0, 8);
    SortedJoin(["address", "chain_id", "created_at", "created_by"], ["id", "is_whitelisted", "name",
        "organization_id", "updated_at"], 0);
    SortedNamesPrefixFree(["address", "chain_id", "created_at", "created_by"] + ["id", "is_whitelisted", "name",
        "organization_id", "updated_at"]);
  }

  lemma AppUserProfiles()
    ensures IsColumnList(["created_at", "legal_accepted_at", "updated_at", "user_id"])
  {
    SortedNamesPrefixFree(["created_at", "legal_accepted_at", "updated_at", "user_id"]);
  }

  lemma Approvals()
    ensures IsColumnList(["action", "comment", "created_at"] + ["id", "request_id", "updated_at", "user_id"])
  {
    SortedJoin(["action", "comment", "created_at"], ["id", "request_id", "updated_at", "user_id"], 0);
    SortedNamesPrefixFree(["action", "comment", "created_at"] + ["id", "request_id", "updated_at", "user_id"]);
  }

  lemma Assets()
    ensures IsColumnList(["chain_id", "contract_address", "created_at", "decimals", "icon_url"] + ["id",
        "is_active", "name", "symbol", "type", "updated_at"])
  {
    SortedJoin(["chain_id", "contract_address", "created_at", "decimals", "icon_url"], ["id", "is_active",
        "name", "symbol", "type", "updated_at"], 0);
    SortedNamesPrefixFree(["chain_id", "contract_address", "created_at", "decimals", "icon_url"] + ["id",
        "is_active", "name", "symbol", "type", "updated_at"]);
  }

  lemma AuditLogs()
    ensures IsColumnList(["action", "created_at", "details", "id", "ip_address"] + ["organization_id",
        "resource_id", "resource_type", "user_agent", "user_id"])
  {
    PartsLate("resource_id", "resource_type", 0, 9);
    PartsLate("user_agent", "user_id", 0, 5);
    SortedJoin(["action", "created_at", "details", "id", "ip_address"], ["organization_id", "resource_id",
        "resource_type", "user_agent", "user_id"], 0);
    SortedNamesPrefixFree(["action", "created_at", "details", "id", "ip_address"] + ["organization_id",
        "resource_id", "resource_type", "user_agent", "user_id"]);
  }

  lemma Chains()
    ensures IsColumnList(["algorithm", "chain_id", "created_at", "currency_symbol", "curve", "explorer_url"] +
        ["icon_url", "id", "is_testnet", "name", "rpc_url", "type", "updated_at"])
  {
    PartsLate("currency_symbol", "curve", 0, 3);
    SortedJoin(["algorithm", "chain_id", "created_at", "currency_symbol", "curve", "explorer_url"], ["icon_url",
        "id", "is_testnet", "name", "rpc_url", "type", "updated_at"], 0);
    SortedNamesPrefixFree(["algorithm", "chain_id", "created_at", "currency_symbol", "curve", "explorer_url"] +
        ["icon_url", "id", "is_testnet", "name", "rpc_url", "type", "updated_at"]);
  }

  lemma OrganizationMembers()
    ensures IsColumnList(["created_at", "organization_id", "role", "user_id"])
  {
    SortedNamesPrefixFree(["created_at", "organization_id", "role", "user_id"]);
  }

  lemma Organizations()
    ensures IsColumnList(["created_at", "id", "name", "owner_id", "updated_at"])
  {
    SortedNamesPrefixFree(["created_at", "id", "name", "owner_id", "updated_at"]);
  }

  lemma PushTokens()
    ensures IsColumnList(["created_at", "id", "provider", "token", "updated_at", "user_id"])
  {
    SortedNamesPrefixFree(["created_at", "id", "provider", "token", "updated_at", "user_id"]);
  }

  lemma RefreshTokens()
    ensures IsColumnList(["created_at", "token", "updated_at", "user_id"])
  {
    SortedNamesPrefixFree(["created_at", "token", "updated_at", "user_id"]);
  }

  lemma SigningRequests()
    ensures IsColumnList(["amount", "created_at", "id", "initiator_id", "mpc_session_id", "note", "signature"] +
        ["status", "to_address", "tx_data", "tx_hash", "updated_at", "vault_id", "wallet_id"])
  {
    PartsLate("tx_data", "tx_hash", 0, 3);
    SortedJoin(["amount", "created_at", "id", "initiator_id", "mpc_session_id", "note", "signature"], ["status",
        "to_address", "tx_data", "tx_hash", "updated_at", "vault_id", "wallet_id"], 0);
    SortedNamesPrefixFree(["amount", "created_at", "id", "initiator_id", "mpc_session_id", "note", "signature"]
        + ["status", "to_address", "tx_data", "tx_hash", "updated_at", "vault_id", "wallet_id"]);
  }

  lemma SpendingLimits()
    ensures IsColumnList(["action", "amount", "asset_id", "created_at"] + ["id", "updated_at", "vault_id",
        "window_seconds"])
  {
    SortedJoin(["action", "amount", "asset_id", "created_at"], ["id", "updated_at", "vault_id",
        "window_seconds"], 0);
    SortedNamesPrefixFree(["action", "amount", "asset_id", "created_at"] + ["id", "updated_at", "vault_id",
        "window_seconds"]);
  }

  lemma UserCredentials()
    ensures IsColumnList(["aaguid", "attestation_type", "created_at", "credential_id", "device_name"] + ["id",
        "last_used_at", "public_key", "sign_count", "updated_at", "user_id"])
  {
    PartsLate("created_at", "credential_id", 0, 3);
    SortedJoin(["aaguid", "attestation_type", "created_at", "credential_id", "device_name"], ["id",
        "last_used_at", "public_key", "sign_count", "updated_at", "user_id"], 0);
    SortedNamesPrefixFree(["aaguid", "attestation_type", "created_at", "credential_id", "device_name"] + ["id",
        "last_used_at", "public_key", "sign_count", "updated_at", "user_id"]);
  }

  lemma Users()
    ensures IsColumnList(["created_at", "id", "is_active", "last_authenticated_at"] + ["password",
        "requires_confirmation", "scopes", "updated_at", "username"])
  {
    SortedJoin(["created_at", "id", "is_active", "last_authenticated_at"], ["password", "requires_confirmation",
        "scopes", "updated_at", "username"], 0);
    SortedNamesPrefixFree(["created_at", "id", "is_active", "last_authenticated_at"] + ["password",
        "requires_confirmation", "scopes", "updated_at", "username"]);
  }

  lemma VaultKeys()
    ensures IsColumnList(["algorithm", "created_at", "curve", "id"] + ["key_id", "public_key_hex", "updated_at",
        "vault_id"])
  {
    SortedJoin(["algorithm", "created_at", "curve", "id"], ["key_id", "public_key_hex", "updated_at",
        "vault_id"], 0);
    SortedNamesPrefixFree(["algorithm", "created_at", "curve", "id"] + ["key_id", "public_key_hex",
        "updated_at", "vault_id"]);
  }

  lemma Vaults()
    ensures IsColumnList(["created_at", "id", "name", "organization_id", "threshold", "updated_at"])
  {
    SortedNamesPrefixFree(["created_at", "id", "name", "organization_id", "threshold", "updated_at"]);
  }

  lemma WalletBalances()
    ensures IsColumnList(["asset_id", "balance", "id", "raw_balance", "updated_at", "wallet_id"])
  {
    SortedNamesPrefixFree(["asset_id", "balance", "id", "raw_balance", "updated_at", "wallet_id"]);
  }

  lemma Wallets()
    ensures IsColumnList(["address", "chain_id", "created_at", "derive_index"] + ["derive_path", "id", "key_id",
        "updated_at", "vault_id"])
  {
    PartsLate("derive_index", "derive_path", 0, 7);
    SortedJoin(["address", "chain_id", "created_at", "derive_index"], ["derive_path", "id", "key_id",
        "updated_at", "vault_id"], 0);
    SortedNamesPrefixFree(["address", "chain_id", "created_at", "derive_index"] + ["derive_path", "id",
        "key_id", "updated_at", "vault_id"]);
  }
}
